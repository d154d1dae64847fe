/**
 * The photo screen (screens/photo_screen.py): on its first update it takes one
 * high-resolution photo through the camera handler, then runs a white flash that
 * fades out, holds the new polaroid in the centre, lets it fall into its slot at the
 * bottom of the screen and finally hands over to the countdown for the next photo.
 *
 * The camera handler is opaque: the calls made on it are recorded in order, and what
 * take_photo produced (turned into a polaroid) is a parameter of update.
 */
module PhotoScreen {

  import opened Common

  datatype Phase = Flash | Hold | Fall | Done

  /** The order in which the phases are meant to follow each other. */
  function Rank(p: Phase): nat {
    match p
    case Flash => 0
    case Hold => 1
    case Fall => 2
    case Done => 3
  }

  datatype CameraCall = StopContinuous | TakePhoto | StartContinuous | GetLatestImage

  /**
   * A captured photo as a polaroid: its handle and the size of the polaroid frame's
   * image rectangle, which the polaroid widget computes.
   */
  datatype Shot = Shot(polaroid: ImageId, w: nat, h: nat)

  datatype Pos = Pos(x: int, y: int)

  /** The abstract value of a PhotoScreen's fields. */
  datatype PhotoState = PhotoState(
    elapsed: real,
    isCaptured: bool,
    flashAlpha: int,
    polaroid: Option<Shot>,
    position: Pos,
    polaroids: seq<ImageId>,
    photoIndex: int,
    phase: Phase,
    animTimer: real,
    startPos: Pos,
    targetPos: Pos,
    cameraCalls: seq<CameraCall>)

  /** Seconds the flash takes to fade out. */
  const FadeDuration: real := 0.5
  /** The hold phase ends this many seconds after the capture. */
  const HoldUntil: real := 2.5
  /** Seconds the fall takes. */
  const FallDuration: real := 1.0
  /** Horizontal gap between the three polaroid slots. */
  const Gap := 20
  /** Distance between a slot's bottom edge and the screen's bottom edge. */
  const BottomMargin := 40
  /** Photos in a session as far as this screen is concerned (fixed in the code). */
  const LastPhotoIndex := 3

  /**
   * max(0, int(255 * (1 - t / 0.5))) for t < 0.5, else 0. The product is positive
   * whenever t < 0.5, so truncation toward zero is the floor.
   */
  function FlashAlpha(t: real): int {
    if t < FadeDuration then
      var a := (255.0 * (1.0 - t / FadeDuration)).Floor;
      if a < 0 then 0 else a
    else 0
  }

  /** The fall parameter min(1, anim_timer / duration). */
  function FallParam(animTimer: real): real {
    if animTimer / FallDuration < 1.0 then animTimer / FallDuration else 1.0
  }

  /** int(pw * 0.4) for a non-negative width: the polaroid's size once it has fallen. */
  function Shrunk(d: nat): nat {
    (2 * d) / 5
  }

  /**
   * The slot of photo `index` (1-based) in a centred row of three shrunk polaroids
   * separated by Gap, bottom-aligned BottomMargin above the screen's bottom edge.
   */
  function TargetSlot(width: int, height: int, shot: Shot, index: int): Pos {
    var fw := Shrunk(shot.w);
    var fh := Shrunk(shot.h);
    var startX := (width - (3 * fw + 2 * Gap)) / 2;
    Pos(startX + (index - 1) * (fw + Gap), height - BottomMargin - fh)
  }

  /** The polaroid centred on the screen (floor division, as Python's //). */
  function Centred(width: int, height: int, shot: Shot): Pos {
    Pos((width - shot.w) / 2, (height - shot.h) / 2)
  }

  /**
   * The capture block: only when not yet captured, live view is stopped, a photo is
   * taken, live view is resumed whether or not a photo came back, and the timeline
   * restarts at 0. A photo that came back becomes the centred current polaroid.
   */
  function Captured(s: PhotoState, width: int, height: int, shot: Option<Shot>): PhotoState {
    if s.isCaptured then s
    else
      var s1 := if shot.Some? then s.(polaroid := shot, position := Centred(width, height, shot.value)) else s;
      s1.(isCaptured := true,
          cameraCalls := s.cameraCalls + [StopContinuous, TakePhoto, StartContinuous],
          elapsed := 0.0)
  }

  /** flash -> hold after FadeDuration, hold -> fall after HoldUntil, aiming at the slot. */
  function Advanced(s: PhotoState, width: int, height: int): PhotoState {
    var s1 := if s.elapsed > FadeDuration && s.phase == Flash then s.(phase := Hold) else s;
    if s1.elapsed > HoldUntil && s1.phase == Hold then
      var s2 := s1.(phase := Fall, animTimer := 0.0);
      if s2.polaroid.Some? then
        s2.(startPos := s2.position, targetPos := TargetSlot(width, height, s2.polaroid.value, s2.photoIndex))
      else s2
    else s1
  }

  /** One step of the fall: the timer advances, and the fall is done once its parameter reaches 1. */
  function Fallen(s: PhotoState, dt: real): PhotoState {
    if s.phase == Fall then
      var a := s.animTimer + dt;
      s.(animTimer := a, phase := if FallParam(a) >= 1.0 then Done else Fall)
    else s
  }

  /** The hand-over to the countdown for the next photo. */
  function NextPhoto(index: int, polaroids: seq<ImageId>): Switch {
    Switch("countdown", map["photo_index" := Int(index + 1), "polaroids" := Images(polaroids)])
  }

  /**
   * The next step once done: the current polaroid, if any, joins the list (once: it is
   * then dropped), and before the last photo the countdown is asked for the next one.
   */
  function Finished(s: PhotoState): (PhotoState, Option<Switch>) {
    if s.phase == Done then
      var s1 := if s.polaroid.Some? then
        s.(polaroids := s.polaroids + [s.polaroid.value.polaroid], polaroid := None) else s;
      (s1, if s1.photoIndex < LastPhotoIndex then Some(NextPhoto(s1.photoIndex, s1.polaroids)) else None)
    else (s, None)
  }

  /** update(dt): the new state and the switch request made through the callback. */
  function Updated(s: PhotoState, width: int, height: int, dt: real, shot: Option<Shot>)
    : (PhotoState, Option<Switch>)
  {
    var s1 := Captured(s.(elapsed := s.elapsed + dt), width, height, shot);
    var s2 := s1.(cameraCalls := s1.cameraCalls + [GetLatestImage], flashAlpha := FlashAlpha(s1.elapsed));
    Finished(Fallen(Advanced(s2, width, height), dt))
  }

  /** on_enter(**context): re-arm the capture and the flash, take index and list from the context. */
  function Entered(s: PhotoState, ctx: Context): PhotoState {
    s.(elapsed := 0.0, isCaptured := false, flashAlpha := 255, polaroid := None,
       photoIndex := GetInt(ctx, "photo_index", 1), polaroids := GetImages(ctx, "polaroids"),
       phase := Flash)
  }

  /** The state of a freshly constructed screen. */
  function Initial(): PhotoState {
    PhotoState(0.0, false, 255, None, Pos(0, 0), [], 1, Flash, 0.0, Pos(0, 0), Pos(0, 0), [])
  }

  // ----- properties -----

  /**
   * The flash alpha is 255 at the start, stays within [0, 255] for non-negative
   * times, never increases as time goes on, and is 0 from FadeDuration on.
   */
  lemma FlashAlphaFades(t: real, t': real)
    requires 0.0 <= t <= t'
    ensures FlashAlpha(0.0) == 255
    ensures 0 <= FlashAlpha(t) <= 255
    ensures FlashAlpha(t') <= FlashAlpha(t)
    ensures t >= FadeDuration ==> FlashAlpha(t) == 0
  {
    if t' < FadeDuration {
      assert 255.0 * (1.0 - t' / FadeDuration) <= 255.0 * (1.0 - t / FadeDuration);
    }
  }

  /** The fall parameter is clamped to [0, 1] and reaches 1 exactly at FallDuration. */
  lemma FallParamClamped(a: real)
    requires a >= 0.0
    ensures 0.0 <= FallParam(a) <= 1.0
    ensures FallParam(a) >= 1.0 <==> a >= FallDuration
  {
  }

  /**
   * Consecutive slots sit exactly one shrunk width plus Gap apart on the same row, and
   * the three slots together are centred: the margins left and right of the row
   * differ by at most one pixel.
   */
  lemma TargetSlotsInARow(width: int, height: int, shot: Shot, index: int)
    ensures TargetSlot(width, height, shot, index + 1).x - TargetSlot(width, height, shot, index).x
            == Shrunk(shot.w) + Gap
    ensures TargetSlot(width, height, shot, index + 1).y == TargetSlot(width, height, shot, index).y
    ensures var left := TargetSlot(width, height, shot, 1).x;
            var right := width - (TargetSlot(width, height, shot, 3).x + Shrunk(shot.w));
            0 <= right - left <= 1
    ensures TargetSlot(width, height, shot, index).y + Shrunk(shot.h) == height - BottomMargin
  {
  }

  /** The polaroid starts centred: equal margins on both sides, up to one pixel. */
  lemma CentredPolaroid(width: int, height: int, shot: Shot)
    ensures var p := Centred(width, height, shot);
            0 <= (width - (p.x + shot.w)) - p.x <= 1 && 0 <= (height - (p.y + shot.h)) - p.y <= 1
  {
  }

  /** Phases only move forward: flash, hold, fall, done. */
  lemma PhasesOnlyAdvance(s: PhotoState, width: int, height: int, dt: real, shot: Option<Shot>)
    ensures Rank(Updated(s, width, height, dt, shot).0.phase) >= Rank(s.phase)
  {
  }

  /**
   * The camera protocol of one update: on the first update after on_enter the
   * handler sees stop_continuous, take_photo and start_continuous in that order
   * (start_continuous even when no photo came back), then get_latest_image; on every
   * later update only get_latest_image. The capture restarts the timeline, so the
   * first update leaves the flash at full strength and the phase at flash.
   */
  lemma CameraProtocol(s: PhotoState, width: int, height: int, dt: real, shot: Option<Shot>)
    ensures var s' := Updated(s, width, height, dt, shot).0;
      s'.isCaptured &&
      (s.isCaptured ==> s'.cameraCalls == s.cameraCalls + [GetLatestImage]) &&
      (!s.isCaptured ==>
        s'.cameraCalls == s.cameraCalls + [StopContinuous, TakePhoto, StartContinuous, GetLatestImage])
    ensures !s.isCaptured && s.phase == Flash ==>
      var r := Updated(s, width, height, dt, shot);
      r.0.elapsed == 0.0 && r.0.flashAlpha == 255 && r.0.phase == Flash && r.1 == None
    ensures !s.isCaptured && s.phase == Flash && shot.Some? ==>
      Updated(s, width, height, dt, shot).0.polaroid == shot &&
      Updated(s, width, height, dt, shot).0.position == Centred(width, height, shot.value)
  {
  }

  /**
   * Once done, the screen asks for the next photo exactly while the index is below 3,
   * passing index + 1 and the list grown by the current polaroid; the polaroid is
   * appended once, so a later update in the done phase leaves the list alone.
   */
  lemma DoneHandsOver(s: PhotoState, width: int, height: int, dt: real, shot: Option<Shot>)
    requires s.isCaptured && s.phase == Done
    ensures var r := Updated(s, width, height, dt, shot);
      var list := s.polaroids + (if s.polaroid.Some? then [s.polaroid.value.polaroid] else []);
      r.0.polaroids == list && r.0.polaroid == None &&
      (s.photoIndex < LastPhotoIndex ==> r.1 == Some(NextPhoto(s.photoIndex, list))) &&
      (s.photoIndex >= LastPhotoIndex ==> r.1 == None)
    ensures var s' := Updated(s, width, height, dt, shot).0;
      Updated(s', width, height, dt, shot).0.polaroids == s'.polaroids
  {
  }

  /** The state after a sequence of updates, given (dt, shot) per update. */
  function Run(s: PhotoState, width: int, height: int, steps: seq<(real, Option<Shot>)>): PhotoState
    decreases |steps|
  {
    if steps == [] then s
    else Run(Updated(s, width, height, steps[0].0, steps[0].1).0, width, height, steps[1..])
  }

  function Count(calls: seq<CameraCall>, c: CameraCall): nat {
    if calls == [] then 0 else (if calls[0] == c then 1 else 0) + Count(calls[1..], c)
  }

  lemma {:induction false} CountAppend(a: seq<CameraCall>, b: seq<CameraCall>, c: CameraCall)
    ensures Count(a + b, c) == Count(a, c) + Count(b, c)
  {
    if a == [] {
      assert a + b == b;
    } else {
      assert (a + b)[1..] == a[1..] + b;
      CountAppend(a[1..], b, c);
    }
  }

  /**
   * However many updates follow an on_enter, a photo is taken once: exactly one
   * take_photo and one stop_continuous reach the handler.
   */
  lemma {:induction false} CapturesOncePerEntry(
    s: PhotoState, ctx: Context, width: int, height: int, steps: seq<(real, Option<Shot>)>)
    requires steps != []
    ensures var calls := Run(Entered(s, ctx), width, height, steps).cameraCalls;
      |calls| >= |s.cameraCalls| &&
      Count(calls[|s.cameraCalls|..], TakePhoto) == 1 &&
      Count(calls[|s.cameraCalls|..], StopContinuous) == 1
  {
    var e := Entered(s, ctx);
    var s1 := Updated(e, width, height, steps[0].0, steps[0].1).0;
    assert e.cameraCalls == s.cameraCalls && !e.isCaptured;
    CameraProtocol(e, width, height, steps[0].0, steps[0].1);
    assert Run(e, width, height, steps) == Run(s1, width, height, steps[1..]);
    LaterUpdatesOnlyPoll(s1, width, height, steps[1..]);
    OneCapture(s.cameraCalls, |steps| - 1);
  }

  /** The calls of the first update followed by n polls hold one take_photo and one stop_continuous. */
  lemma OneCapture(before: seq<CameraCall>, n: nat)
    ensures var calls := before + [StopContinuous, TakePhoto, StartContinuous, GetLatestImage] + Polls(n);
      |calls| >= |before| &&
      Count(calls[|before|..], TakePhoto) == 1 && Count(calls[|before|..], StopContinuous) == 1
  {
    var added := [StopContinuous, TakePhoto, StartContinuous, GetLatestImage];
    var calls := before + added + Polls(n);
    assert calls[|before|..] == added + Polls(n);
    CountAppend(added, Polls(n), TakePhoto);
    CountAppend(added, Polls(n), StopContinuous);
    PollsCount(n);
  }

  function Polls(n: nat): seq<CameraCall> {
    if n == 0 then [] else Polls(n - 1) + [GetLatestImage]
  }

  lemma {:induction false} PollsCount(n: nat)
    ensures Count(Polls(n), TakePhoto) == 0 && Count(Polls(n), StopContinuous) == 0
  {
    if n > 0 {
      PollsCount(n - 1);
      CountAppend(Polls(n - 1), [GetLatestImage], TakePhoto);
      CountAppend(Polls(n - 1), [GetLatestImage], StopContinuous);
    }
  }

  /** After the capture, each update only polls the handler for the latest image. */
  lemma {:induction false} LaterUpdatesOnlyPoll(
    s: PhotoState, width: int, height: int, steps: seq<(real, Option<Shot>)>)
    requires s.isCaptured
    ensures Run(s, width, height, steps).cameraCalls == s.cameraCalls + Polls(|steps|)
    decreases |steps|
  {
    if steps != [] {
      var s1 := Updated(s, width, height, steps[0].0, steps[0].1).0;
      CameraProtocol(s, width, height, steps[0].0, steps[0].1);
      LaterUpdatesOnlyPoll(s1, width, height, steps[1..]);
      PollsCons(|steps| - 1);
      assert s1.cameraCalls + Polls(|steps| - 1) == s.cameraCalls + ([GetLatestImage] + Polls(|steps| - 1));
    }
  }

  lemma {:induction false} PollsCons(n: nat)
    ensures [GetLatestImage] + Polls(n) == Polls(n + 1)
  {
    if n > 0 {
      PollsCons(n - 1);
    }
  }

  class PhotoScreen {
    const width: int
    const height: int
    var elapsed: real
    var isCaptured: bool
    var flashAlpha: int
    var polaroid: Option<Shot>
    var position: Pos
    var polaroids: seq<ImageId>
    var photoIndex: int
    var phase: Phase
    var animTimer: real
    var startPos: Pos
    var targetPos: Pos
    /** The calls made on the camera handler so far, oldest first. */
    var cameraCalls: seq<CameraCall>

    function State(): PhotoState
      reads this
    {
      PhotoState(elapsed, isCaptured, flashAlpha, polaroid, position, polaroids, photoIndex,
                 phase, animTimer, startPos, targetPos, cameraCalls)
    }

    constructor (w: int, h: int)
      ensures width == w && height == h && State() == Initial()
    {
      width, height := w, h;
      elapsed, isCaptured, flashAlpha, polaroid, position := 0.0, false, 255, None, Pos(0, 0);
      polaroids, photoIndex, phase, animTimer := [], 1, Flash, 0.0;
      startPos, targetPos, cameraCalls := Pos(0, 0), Pos(0, 0), [];
    }

    /** handle_event: space, escape, a touch or a click all go back to the main screen. */
    method HandleEvent(e: Event) returns (r: Option<Switch>)
      ensures r.Some? <==> e.Press().Some? || e == KeyDown(Space) || e == KeyDown(Escape)
      ensures r.Some? ==> r.value == Switch("main", map[])
    {
      match e
      case KeyDown(k) =>
        r := if k == Space || k == Escape then Some(Switch("main", map[])) else None;
      case MouseDown(_, _) =>
        r := Some(Switch("main", map[]));
      case FingerDown(_, _) =>
        r := Some(Switch("main", map[]));
      case OtherEvent =>
        r := None;
    }

    /** update(dt, callback); `shot` is what take_photo would yield, used on the first update only. */
    method Update(dt: real, shot: Option<Shot>) returns (request: Option<Switch>)
      modifies this
      ensures State() == Updated(old(State()), width, height, dt, shot).0
      ensures request == Updated(old(State()), width, height, dt, shot).1
    {
      ghost var s0 := State();
      elapsed := elapsed + dt;
      assert State() == s0.(elapsed := s0.elapsed + dt);
      Capture(shot);
      ghost var s1 := State();
      cameraCalls := cameraCalls + [GetLatestImage];
      flashAlpha := FlashAlpha(elapsed);
      assert State() == s1.(cameraCalls := s1.cameraCalls + [GetLatestImage], flashAlpha := FlashAlpha(s1.elapsed));
      AdvancePhase();
      FallStep(dt);
      request := Finish();
    }

    /** The fall block of update. */
    method FallStep(dt: real)
      modifies this
      ensures State() == Fallen(old(State()), dt)
    {
      if phase == Fall {
        animTimer := animTimer + dt;
        phase := if FallParam(animTimer) >= 1.0 then Done else Fall;
      }
    }

    /** The capture block of update. */
    method Capture(shot: Option<Shot>)
      modifies this
      ensures State() == Captured(old(State()), width, height, shot)
    {
      if !isCaptured {
        isCaptured := true;
        cameraCalls := cameraCalls + [StopContinuous];
        cameraCalls := cameraCalls + [TakePhoto];
        if shot.Some? {
          polaroid := shot;
          position := Centred(width, height, shot.value);
        }
        cameraCalls := cameraCalls + [StartContinuous];
        elapsed := 0.0;
      }
    }

    /** The flash -> hold and hold -> fall transitions of update. */
    method AdvancePhase()
      modifies this
      ensures State() == Advanced(old(State()), width, height)
    {
      if elapsed > FadeDuration && phase == Flash {
        phase := Hold;
      }
      if elapsed > HoldUntil && phase == Hold {
        phase := Fall;
        animTimer := 0.0;
        if polaroid.Some? {
          startPos := position;
          targetPos := TargetSlot(width, height, polaroid.value, photoIndex);
        }
      }
    }

    /** The next-step block of update. */
    method Finish() returns (request: Option<Switch>)
      modifies this
      ensures (State(), request) == Finished(old(State()))
    {
      request := None;
      if phase == Done {
        if polaroid.Some? {
          polaroids := polaroids + [polaroid.value.polaroid];
          polaroid := None;
        }
        if photoIndex < LastPhotoIndex {
          request := Some(NextPhoto(photoIndex, polaroids));
        }
      }
    }

    /** on_enter(**context) */
    method OnEnter(ctx: Context)
      modifies this
      ensures State() == Entered(old(State()), ctx)
    {
      elapsed, isCaptured, flashAlpha, polaroid := 0.0, false, 255, None;
      photoIndex := GetInt(ctx, "photo_index", 1);
      polaroids := GetImages(ctx, "polaroids");
      phase := Flash;
    }

    /**
     * on_exit: drops this screen's reference to the list (the list handed to the
     * countdown is not affected); the current polaroid, if any, is cleaned up but kept.
     */
    method OnExit()
      modifies this
      ensures State() == old(State()).(polaroids := [])
    {
      polaroids := [];
    }
  }
}

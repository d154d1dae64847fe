/**
 * Composition of the session's photos into one printable image
 * (utils/layout_composer.py). Opening, fitting and pasting images is done by an image
 * library outside the model: the canvas is the list of pastes made on it, the photos
 * the library cannot open are given as a set, and whether saving the canvas works is
 * a parameter.
 */
module LayoutComposer {

  import opened Common
  import LM = LayoutManager

  /** One photo fitted to (width, height) and pasted with its top-left corner at (x, y). */
  datatype Paste = Paste(photo: string, x: int, y: int, width: int, height: int)

  /** A white canvas of the given size and the pastes made on it, in order. */
  datatype Canvas = Canvas(width: int, height: int, pastes: seq<Paste>)

  /**
   * What compose did: returned None, returned the path of the saved canvas, or let an
   * exception escape (Image.new with a negative size, or canvas.save failing), with
   * the canvas as far as it was built.
   */
  datatype Composition = NoComposition | Saved(path: string, canvas: Canvas) | Raised(built: Option<Canvas>)

  const DefaultCanvasWidth := 1800
  const DefaultCanvasHeight := 1200

  function GetOr(v: Option<int>, default: int): int {
    if v.Some? then v.value else default
  }

  /** min(i, n - 1): the photo slot i takes, reusing the last photo when they run out. */
  function PhotoIndex(i: nat, n: nat): nat
    requires n > 0
  {
    if i < n - 1 then i else n - 1
  }

  /**
   * Processing one slot raises: the photo cannot be opened, a slot key is missing, or
   * the slot has no area, since ImageOps.fit divides by the height and the resize it
   * ends with refuses a side of 0 or less.
   */
  predicate SlotFails(slot: LM.Slot, photo: string, unreadable: set<string>) {
    photo in unreadable || slot.x.None? || slot.y.None? || slot.width.None? || slot.height.None? ||
    slot.width.value <= 0 || slot.height.value <= 0
  }

  /** What processing one slot does: a paste, or None when the body of the try block raises. */
  function SlotOutcome(slot: LM.Slot, photo: string, unreadable: set<string>): (r: Option<Paste>)
    ensures r.None? <==> SlotFails(slot, photo, unreadable)
    ensures r.Some? ==>
              r.value.photo == photo && r.value.width > 0 && r.value.height > 0 &&
              Some(r.value.x) == slot.x && Some(r.value.y) == slot.y &&
              Some(r.value.width) == slot.width && Some(r.value.height) == slot.height
  {
    if SlotFails(slot, photo, unreadable) then None
    else Some(Paste(photo, slot.x.value, slot.y.value, slot.width.value, slot.height.value))
  }

  /** The outcome of slot i of a composition. */
  function Outcome(slots: seq<LM.Slot>, photos: seq<string>, unreadable: set<string>, i: nat): Option<Paste>
    requires photos != [] && i < |slots|
  {
    SlotOutcome(slots[i], photos[PhotoIndex(i, |photos|)], unreadable)
  }

  /** The pastes made by the first k slots, in slot order, failed slots skipped. */
  function Pastes(slots: seq<LM.Slot>, photos: seq<string>, unreadable: set<string>, k: nat): seq<Paste>
    requires photos != [] && k <= |slots|
  {
    if k == 0 then []
    else
      var o := Outcome(slots, photos, unreadable, k - 1);
      Pastes(slots, photos, unreadable, k - 1) + (if o.Some? then [o.value] else [])
  }

  /** The indices among the first k slots whose processing succeeded, in order. */
  function Succeeded(slots: seq<LM.Slot>, photos: seq<string>, unreadable: set<string>, k: nat): seq<nat>
    requires photos != [] && k <= |slots|
  {
    if k == 0 then []
    else
      Succeeded(slots, photos, unreadable, k - 1) +
      (if Outcome(slots, photos, unreadable, k - 1).Some? then [k - 1] else [])
  }

  /**
   * Every slot is visited once, in order, and a failure skips only its own slot: the
   * j-th paste is the outcome of the j-th successful slot.
   */
  lemma {:induction false} PastesAreSuccessfulSlots(
    slots: seq<LM.Slot>, photos: seq<string>, unreadable: set<string>, k: nat)
    requires photos != [] && k <= |slots|
    ensures |Pastes(slots, photos, unreadable, k)| == |Succeeded(slots, photos, unreadable, k)|
    ensures forall j :: 0 <= j < |Succeeded(slots, photos, unreadable, k)| ==>
      Succeeded(slots, photos, unreadable, k)[j] < k &&
      Outcome(slots, photos, unreadable, Succeeded(slots, photos, unreadable, k)[j]).Some? &&
      Pastes(slots, photos, unreadable, k)[j] ==
        Outcome(slots, photos, unreadable, Succeeded(slots, photos, unreadable, k)[j]).value
  {
    if k > 0 {
      var s, p := Succeeded(slots, photos, unreadable, k - 1), Pastes(slots, photos, unreadable, k - 1);
      PastesAreSuccessfulSlots(slots, photos, unreadable, k - 1);
      var s', p' := Succeeded(slots, photos, unreadable, k), Pastes(slots, photos, unreadable, k);
      assert forall j :: 0 <= j < |s| ==> s'[j] == s[j] && p'[j] == p[j];
    }
  }

  /** The successful slots are listed in strictly increasing order, each exactly once. */
  lemma {:induction false} SucceededIncreasing(
    slots: seq<LM.Slot>, photos: seq<string>, unreadable: set<string>, k: nat)
    requires photos != [] && k <= |slots|
    ensures forall j :: 0 <= j < |Succeeded(slots, photos, unreadable, k)| ==>
      Succeeded(slots, photos, unreadable, k)[j] < k
    ensures forall j, j' :: 0 <= j < j' < |Succeeded(slots, photos, unreadable, k)| ==>
      Succeeded(slots, photos, unreadable, k)[j] < Succeeded(slots, photos, unreadable, k)[j']
  {
    if k > 0 {
      var s := Succeeded(slots, photos, unreadable, k - 1);
      SucceededIncreasing(slots, photos, unreadable, k - 1);
      var s' := Succeeded(slots, photos, unreadable, k);
      assert forall j :: 0 <= j < |s| ==> s'[j] == s[j];
    }
  }

  /** A slot is among the successful ones exactly when processing it does not raise. */
  lemma {:induction false} SucceededExactly(
    slots: seq<LM.Slot>, photos: seq<string>, unreadable: set<string>, k: nat)
    requires photos != [] && k <= |slots|
    ensures forall i :: 0 <= i < k ==>
      (i in Succeeded(slots, photos, unreadable, k) <==> Outcome(slots, photos, unreadable, i).Some?)
    ensures forall i :: i in Succeeded(slots, photos, unreadable, k) ==> i < k
  {
    if k > 0 {
      SucceededExactly(slots, photos, unreadable, k - 1);
    }
  }

  /**
   * With at least as many photos as slots and no slot failing, slot i is filled with
   * photo i at the slot's own position and size.
   */
  lemma {:induction false} OnePhotoPerSlot(
    slots: seq<LM.Slot>, photos: seq<string>, unreadable: set<string>, k: nat)
    requires photos != [] && k <= |slots| <= |photos|
    requires forall i :: 0 <= i < |slots| ==>
      photos[i] !in unreadable && slots[i].x.Some? && slots[i].y.Some? &&
      slots[i].width.Some? && slots[i].height.Some? && slots[i].width.value > 0 && slots[i].height.value > 0
    ensures |Pastes(slots, photos, unreadable, k)| == k
    ensures forall i :: 0 <= i < k ==>
      Pastes(slots, photos, unreadable, k)[i] ==
        Paste(photos[i], slots[i].x.value, slots[i].y.value, slots[i].width.value, slots[i].height.value)
  {
    if k > 0 {
      OnePhotoPerSlot(slots, photos, unreadable, k - 1);
    }
  }

  /**
   * Photos are only ever taken from the first min(slots, photos) entries, and when
   * photos run out every later paste reuses the last photo.
   */
  lemma {:induction false} PhotosUsed(
    slots: seq<LM.Slot>, photos: seq<string>, unreadable: set<string>, k: nat)
    requires photos != [] && k <= |slots|
    ensures forall p :: p in Pastes(slots, photos, unreadable, k) ==>
      exists i :: 0 <= i < |photos| && i < |slots| && p.photo == photos[i]
    ensures forall i :: |photos| <= i < k && Outcome(slots, photos, unreadable, i).Some? ==>
      Outcome(slots, photos, unreadable, i).value.photo == photos[|photos| - 1]
  {
    if k > 0 {
      PhotosUsed(slots, photos, unreadable, k - 1);
      var i := PhotoIndex(k - 1, |photos|);
      assert i < |photos| && i < |slots|;
    }
  }

  /** The file name of a composition: composed_{mode}_{timestamp}.jpg */
  function FileName(mode: string, timestamp: string): string {
    "composed_" + mode + "_" + timestamp + ".jpg"
  }

  /** os.path.join on POSIX for a relative name: one '/' is inserted unless already there. */
  function Join(dir: string, name: string): (r: string)
    ensures |dir| + |name| <= |r| <= |dir| + |name| + 1
    ensures r[..|dir|] == dir && r[|r| - |name|..] == name
    ensures dir != [] ==> r[|dir| - 1] == '/' || (|r| > |dir| && r[|dir|] == '/')
  {
    if dir == [] || dir[|dir| - 1] == '/' then dir + name else dir + "/" + name
  }

  class LayoutComposer {
    var outputDir: string
    var layoutMgr: LM.LayoutManager

    /** __init__: the output directory and the shared layout catalogue. */
    constructor (dir: string, mgr: LM.LayoutManager)
      ensures outputDir == dir && layoutMgr == mgr
    {
      outputDir := dir;
      layoutMgr := mgr;
    }

    /**
     * compose(mode, photo_paths), given whether canvas.save succeeds: NoComposition for
     * an empty photo list (before any lookup) or an unknown layout; Raised before any
     * slot for a negative canvas size; otherwise a canvas of the layout's size
     * (1800x1200 by default) holding the pastes of every successful slot, saved and
     * returned under output_dir/composed_{mode}_{timestamp}.jpg, or Raised with that
     * canvas when saving fails.
     */
    method Compose(mode: string, photos: seq<string>, unreadable: set<string>, timestamp: string, saves: bool)
      returns (r: Composition)
      requires layoutMgr.Valid()
      ensures photos == [] ==> r == NoComposition
      ensures photos != [] && LM.LastWithId(layoutMgr.layouts, mode).None? ==> r == NoComposition
      ensures photos != [] && LM.LastWithId(layoutMgr.layouts, mode).Some? ==>
        var l := LM.LastWithId(layoutMgr.layouts, mode).value;
        var width := GetOr(l.canvasWidth, DefaultCanvasWidth);
        var height := GetOr(l.canvasHeight, DefaultCanvasHeight);
        var slots := if l.slots.Some? then l.slots.value else [];
        var canvas := Canvas(width, height, Pastes(slots, photos, unreadable, |slots|));
        r == (if width < 0 || height < 0 then Raised(None)
              else if !saves then Raised(Some(canvas))
              else Saved(Join(outputDir, FileName(mode, timestamp)), canvas))
    {
      if photos == [] {
        return NoComposition;
      }
      var layout := layoutMgr.GetLayout(mode);
      if layout.None? {
        return NoComposition;
      }
      var l := layout.value;
      var width := GetOr(l.canvasWidth, DefaultCanvasWidth);
      var height := GetOr(l.canvasHeight, DefaultCanvasHeight);
      if width < 0 || height < 0 {
        return Raised(None);
      }
      var slots := if l.slots.Some? then l.slots.value else [];
      var pastes: seq<Paste> := [];
      for i := 0 to |slots|
        invariant pastes == Pastes(slots, photos, unreadable, i)
      {
        var p := photos[PhotoIndex(i, |photos|)];
        var slot := slots[i];
        if !(p in unreadable || slot.x.None? || slot.y.None? || slot.width.None? || slot.height.None? ||
             slot.width.value <= 0 || slot.height.value <= 0) {
          pastes := pastes + [Paste(p, slot.x.value, slot.y.value, slot.width.value, slot.height.value)];
        }
      }
      if !saves {
        return Raised(Some(Canvas(width, height, pastes)));
      }
      r := Saved(Join(outputDir, FileName(mode, timestamp)), Canvas(width, height, pastes));
    }
  }
}

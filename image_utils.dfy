/**
 * The size arithmetic of utils/image_utils.py: the centred square crop of
 * crop_to_square, and where fit_image_to_square places the scaled image on its
 * square. The pixels themselves (subsurface, smoothscale, fill, blit) are outside the
 * model; scale factors are exact reals and int() of a non-negative value is its floor.
 */
module ImageUtils {

  import opened Common

  /**
   * crop_to_square: the region kept of a w x h image. A square image is kept whole;
   * otherwise the longer side loses (longer - shorter) // 2 at its start.
   */
  function CropToSquare(w: nat, h: nat): Rect {
    if w == h then Rect(0, 0, w, h)
    else if w > h then Rect((w - h) / 2, 0, h, h)
    else Rect(0, (h - w) / 2, w, w)
  }

  /**
   * The crop is a min(w, h) square that lies inside the image and is centred in it to
   * within one pixel; a square image is kept whole.
   */
  lemma SquareCropInside(w: nat, h: nat)
    ensures w == h ==> CropToSquare(w, h) == Rect(0, 0, w, h)
    ensures var r := CropToSquare(w, h);
      r.w == r.h == (if w < h then w else h) &&
      0 <= r.x && r.x + r.w <= w && 0 <= r.y && r.y + r.h <= h &&
      0 <= (w - r.x - r.w) - r.x <= 1 && 0 <= (h - r.y - r.h) - r.y <= 1
  {
  }

  /** The scaled size and the position of the image on a size x size square. */
  datatype Placement = Placement(newW: int, newH: int, x: int, y: int)

  /**
   * fit_image_to_square: scale by size / max(w, h), truncate, and centre with floor
   * division.
   */
  function Fit(w: nat, h: nat, size: nat): Placement
    requires w > 0 || h > 0
  {
    var longest := if w >= h then w else h;
    var scale := size as real / longest as real;
    var newW := (w as real * scale).Floor;
    var newH := (h as real * scale).Floor;
    Placement(newW, newH, (size - newW) / 2, (size - newH) / 2)
  }

  /** w * (size / longest) is at most size when w is at most longest. */
  lemma ScaledAtMost(w: nat, longest: nat, size: nat)
    requires 0 <= w <= longest && 0 < longest
    ensures 0.0 <= w as real * (size as real / longest as real) <= size as real
  {
    var q := size as real / longest as real;
    assert q >= 0.0;
    assert w as real * q <= longest as real * q;
    assert longest as real * q == size as real;
  }

  /** The side of length `side` after scaling by size / longest. */
  lemma ScaledSide(side: nat, longest: nat, size: nat)
    requires 0 <= side <= longest && 0 < longest
    ensures var n := (side as real * (size as real / longest as real)).Floor;
      0 <= n <= size && (side == longest ==> n == size)
  {
    ScaledAtMost(side, longest, size);
    var q := size as real / longest as real;
    assert longest as real * q == size as real;
  }

  /**
   * The scaled image fits: both sides lie in [0, size], the longer one is exactly
   * size, and it is placed inside the square, centred to within one pixel.
   */
  lemma FitInside(w: nat, h: nat, size: nat)
    requires w > 0 || h > 0
    ensures var p := Fit(w, h, size);
      0 <= p.newW <= size && 0 <= p.newH <= size &&
      (w >= h ==> p.newW == size) && (h >= w ==> p.newH == size) &&
      0 <= p.x && p.x + p.newW <= size && 0 <= p.y && p.y + p.newH <= size &&
      0 <= (size - p.x - p.newW) - p.x <= 1 && 0 <= (size - p.y - p.newH) - p.y <= 1
  {
    var longest := if w >= h then w else h;
    var p := Fit(w, h, size);
    ScaledSide(w, longest, size);
    ScaledSide(h, longest, size);
    assert p.newW == (w as real * (size as real / longest as real)).Floor;
    assert p.newH == (h as real * (size as real / longest as real)).Floor;
    Centred(size, p.newW);
    Centred(size, p.newH);
  }

  /** Floor-halving the leftover space centres a side of length n on a side of length size. */
  lemma Centred(size: int, n: int)
    requires 0 <= n <= size
    ensures var x := (size - n) / 2; 0 <= x && x + n <= size && 0 <= (size - x - n) - x <= 1
  {
  }
}

/**
 * GLUtils.pixel_to_gl (utils/gl_utils.py): a pixel rectangle (top-left origin, y
 * down) in normalised OpenGL coordinates, x in [-aspect, aspect] and y in [-1, 1]
 * with y up. Coordinates are exact reals.
 */
module GlUtils {

  import opened Common

  datatype GlRect = GlRect(left: real, right: real, top: real, bottom: real)

  /** pixel_to_gl(rect, width, height, aspect_ratio) */
  function PixelToGl(r: Rect, width: int, height: int, aspect: real): GlRect
    requires width != 0 && height != 0
  {
    var w, h := width as real, height as real;
    GlRect((r.x as real / w) * (2.0 * aspect) - aspect,
           ((r.x + r.w) as real / w) * (2.0 * aspect) - aspect,
           (1.0 - r.y as real / h) * 2.0 - 1.0,
           (1.0 - (r.y + r.h) as real / h) * 2.0 - 1.0)
  }

  /**
   * The screen's edges map to the edges of the GL view: left 0 to -aspect, a right
   * edge at the screen width to +aspect, top 0 to 1 and a bottom edge at the screen
   * height to -1.
   */
  lemma ScreenEdges(r: Rect, width: int, height: int, aspect: real)
    requires width != 0 && height != 0
    ensures r.x == 0 ==> PixelToGl(r, width, height, aspect).left == -aspect
    ensures r.x + r.w == width ==> PixelToGl(r, width, height, aspect).right == aspect
    ensures r.y == 0 ==> PixelToGl(r, width, height, aspect).top == 1.0
    ensures r.y + r.h == height ==> PixelToGl(r, width, height, aspect).bottom == -1.0
  {
    if r.y + r.h == height {
      assert (r.y + r.h) as real / height as real == 1.0;
    }
    if r.x + r.w == width {
      assert (r.x + r.w) as real / width as real == 1.0;
    }
  }

  /** The GL extent is proportional to the pixel extent, so it is never negative. */
  lemma Spans(r: Rect, width: int, height: int, aspect: real)
    requires width > 0 && height > 0 && aspect >= 0.0 && r.w >= 0 && r.h >= 0
    ensures var g := PixelToGl(r, width, height, aspect);
      g.right - g.left == 2.0 * aspect * r.w as real / width as real &&
      g.top - g.bottom == 2.0 * r.h as real / height as real &&
      g.right - g.left >= 0.0 && g.top - g.bottom >= 0.0
  {
    var w, h := width as real, height as real;
    var g := PixelToGl(r, width, height, aspect);
    assert (r.x + r.w) as real / w - r.x as real / w == r.w as real / w;
    assert (r.y + r.h) as real / h - r.y as real / h == r.h as real / h;
    assert r.w as real / w >= 0.0 && r.h as real / h >= 0.0;
    assert g.right - g.left == (r.w as real / w) * (2.0 * aspect);
  }

  /** Moving a rectangle right moves both x edges right; moving it down moves both y edges down. */
  lemma Monotone(r: Rect, dx: int, dy: int, width: int, height: int, aspect: real)
    requires width > 0 && height > 0 && aspect > 0.0 && dx > 0 && dy > 0
    ensures var g, g' := PixelToGl(r, width, height, aspect), PixelToGl(Rect(r.x + dx, r.y + dy, r.w, r.h), width, height, aspect);
      g'.left > g.left && g'.right > g.right && g'.top < g.top && g'.bottom < g.bottom
  {
    var w, h := width as real, height as real;
    assert (r.x + dx) as real / w - r.x as real / w == dx as real / w > 0.0;
    assert (r.x + dx + r.w) as real / w - (r.x + r.w) as real / w == dx as real / w;
    assert (r.y + dy) as real / h - r.y as real / h == dy as real / h > 0.0;
    assert (r.y + dy + r.h) as real / h - (r.y + r.h) as real / h == dy as real / h;
  }
}

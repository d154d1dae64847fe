/**
 * The live preview (ui/live_preview.py): camera frames are uploaded into a streaming
 * GPU texture and drawn cropped to the display's aspect ratio ("crop to fill"). The
 * crop rectangle is recomputed, and the texture recreated, only when the frame size
 * changes.
 *
 * Ratios are exact reals and int() of a non-negative product is its floor. The texture
 * is reduced to its state; whether creating it or uploading to it succeeds is a
 * parameter.
 */
module LivePreview {

  import opened Common

  /**
   * _calculate_crop: a frame wider than the display keeps its full height and loses
   * equal parts left and right; any other frame keeps its full width and loses equal
   * parts top and bottom.
   */
  function Crop(frameW: int, frameH: int, displayRatio: real): (r: Rect)
    requires frameW >= 0 && frameH > 0 && displayRatio > 0.0
    ensures frameW as real / frameH as real > displayRatio ==>
      r.y == 0 && r.h == frameH && r.w == (frameH as real * displayRatio).Floor && r.x == (frameW - r.w) / 2
    ensures frameW as real / frameH as real <= displayRatio ==>
      r.x == 0 && r.w == frameW && r.h == (frameW as real / displayRatio).Floor && r.y == (frameH - r.h) / 2
  {
    if frameW as real / frameH as real > displayRatio then
      var cropW := (frameH as real * displayRatio).Floor;
      Rect((frameW - cropW) / 2, 0, cropW, frameH)
    else
      var cropH := (frameW as real / displayRatio).Floor;
      Rect(0, (frameH - cropH) / 2, frameW, cropH)
  }

  /** A frame wider than the display: the full-height crop is narrower than the frame. */
  lemma WideCropFits(fw: real, fh: real, ratio: real)
    requires fh > 0.0 && fw / fh > ratio
    ensures fh * ratio < fw
  {
    assert fw == (fw / fh) * fh;
    assert (fw / fh) * fh > ratio * fh;
  }

  /** Any other frame: the full-width crop is no taller than the frame. */
  lemma TallCropFits(fw: real, fh: real, ratio: real)
    requires fh > 0.0 && ratio > 0.0 && fw / fh <= ratio
    ensures fw / ratio <= fh
  {
    assert fw == (fw / fh) * fh;
    assert (fw / fh) * fh <= ratio * fh;
    assert fw / ratio <= (ratio * fh) / ratio;
  }

  /** The crop always lies inside the frame, and is centred in it to within one pixel. */
  lemma CropInside(frameW: int, frameH: int, displayRatio: real)
    requires frameW >= 0 && frameH > 0 && displayRatio > 0.0
    ensures var r := Crop(frameW, frameH, displayRatio);
      0 <= r.x && r.x + r.w <= frameW && 0 <= r.y && r.y + r.h <= frameH &&
      0 <= r.w && 0 <= r.h &&
      0 <= (frameW - r.x - r.w) - r.x <= 1 && 0 <= (frameH - r.y - r.h) - r.y <= 1
  {
    var fw, fh := frameW as real, frameH as real;
    if fw / fh > displayRatio {
      WideCropFits(fw, fh, displayRatio);
      assert 0.0 <= fh * displayRatio;
    } else {
      TallCropFits(fw, fh, displayRatio);
      assert 0.0 <= fw / displayRatio;
    }
  }

  /** What a draw hands to the texture: the source crop, the destination, and the mirroring. */
  datatype DrawCall = DrawCall(src: Option<Rect>, dst: Rect, flipX: bool)

  /** A frame delivered by the camera: the image and its size. */
  datatype Frame = Frame(image: ImageId, w: int, h: int)

  /** The texture: none yet, a live one of some size, or one that was destroyed. */
  datatype Texture = NoTexture | Live(w: int, h: int) | Destroyed

  class LivePreview {
    const displayW: int
    const displayH: int
    const displayRatio: real
    var texture: Texture
    var srcRect: Option<Rect>
    var texW: int
    var texH: int
    /** The image most recently uploaded into the texture. */
    var shown: Option<ImageId>

    constructor (w: int, h: int)
      requires w > 0 && h > 0
      ensures displayW == w && displayH == h && displayRatio == w as real / h as real
      ensures texture == NoTexture && srcRect == None && texW == 0 && texH == 0 && shown == None
    {
      displayW, displayH := w, h;
      displayRatio := w as real / h as real;
      texture, srcRect, texW, texH, shown := NoTexture, None, 0, 0, None;
    }

    /**
     * update(pil_image): None changes nothing. A frame of a new size (or the first
     * frame) is tracked and gets a fresh crop; a frame of height 0 makes that crop
     * divide by zero, and the ZeroDivisionError escapes (`raised`) with only the size
     * tracked. Otherwise the texture is replaced; if creating the new texture fails the
     * old one stays destroyed and the frame is dropped. Then the frame is uploaded,
     * which works only into a live texture.
     */
    method Update(frame: Option<Frame>, created: bool, uploaded: bool) returns (raised: bool)
      modifies this
      requires displayRatio > 0.0
      requires frame.Some? ==> frame.value.w >= 0 && frame.value.h >= 0
      ensures frame.None? ==>
        !raised && texture == old(texture) && srcRect == old(srcRect) && texW == old(texW) && texH == old(texH) &&
        shown == old(shown)
      ensures frame.Some? && (old(texture).NoTexture? || frame.value.w != old(texW) || frame.value.h != old(texH)) ==>
        raised == (frame.value.h == 0) && texW == frame.value.w && texH == frame.value.h
      ensures frame.Some? && (old(texture).NoTexture? || frame.value.w != old(texW) || frame.value.h != old(texH)) &&
              frame.value.h == 0 ==>
        srcRect == old(srcRect) && texture == old(texture) && shown == old(shown)
      ensures frame.Some? && (old(texture).NoTexture? || frame.value.w != old(texW) || frame.value.h != old(texH)) &&
              frame.value.h > 0 ==>
        srcRect == Some(Crop(frame.value.w, frame.value.h, displayRatio)) &&
        texture == (if created then Live(frame.value.w, frame.value.h) else if old(texture).NoTexture? then NoTexture else Destroyed) &&
        shown == (if created && uploaded then Some(frame.value.image) else old(shown))
      ensures frame.Some? && !(old(texture).NoTexture? || frame.value.w != old(texW) || frame.value.h != old(texH)) ==>
        !raised && texW == old(texW) && texH == old(texH) && srcRect == old(srcRect) && texture == old(texture) &&
        shown == (if texture.Live? && uploaded then Some(frame.value.image) else old(shown))
    {
      raised := false;
      if frame.None? {
        return;
      }
      var f := frame.value;
      if texture.NoTexture? || f.w != texW || f.h != texH {
        texW, texH := f.w, f.h;
        if f.h == 0 {
          return true;
        }
        srcRect := Some(Crop(f.w, f.h, displayRatio));
        if !texture.NoTexture? {
          texture := Destroyed;
        }
        if !created {
          return;
        }
        texture := Live(f.w, f.h);
      }
      if texture.Live? && uploaded {
        shown := Some(f.image);
      }
    }

    /**
     * draw: nothing without a texture; otherwise the crop is drawn at (x, y), by
     * default over the whole display area.
     */
    method Draw(x: int, y: int, width: Option<int>, height: Option<int>, flipX: bool) returns (r: Option<DrawCall>)
      ensures texture.NoTexture? <==> r.None?
      ensures r.Some? ==> r.value.src == srcRect && r.value.flipX == flipX
      ensures r.Some? ==> r.value.dst == Rect(x, y, if width.Some? then width.value else displayW,
                                                    if height.Some? then height.value else displayH)
    {
      if texture.NoTexture? {
        return None;
      }
      var targetW := if width.Some? then width.value else displayW;
      var targetH := if height.Some? then height.value else displayH;
      r := Some(DrawCall(srcRect, Rect(x, y, targetW, targetH), flipX));
    }

    /** release: the texture is destroyed and dropped. */
    method Release()
      modifies this
      ensures texture == NoTexture
      ensures srcRect == old(srcRect) && texW == old(texW) && texH == old(texH) && shown == old(shown)
    {
      if !texture.NoTexture? {
        texture := NoTexture;
      }
    }
  }
}

/** Value types shared by the photobooth modules. */
module Common {

  datatype Option<+T> = None | Some(value: T)

  /** One byte of a byte stream. */
  type byte = x: int | 0 <= x < 256

  /**
   * Images, polaroids and textures are produced and consumed by graphics and camera
   * libraries this model does not look into; an image is an opaque handle.
   */
  type ImageId = nat

  /** An axis-aligned rectangle in pixels, as a pygame.Rect: left, top, width, height. */
  datatype Rect = Rect(x: int, y: int, w: int, h: int) {
    /** pygame's Rect.collidepoint: the right and bottom edges are excluded. */
    predicate Contains(px: int, py: int) {
      x <= px < x + w && y <= py < y + h
    }
  }

  /** A value carried in a screen context or stored in the settings. */
  datatype Value = Int(i: int) | Str(s: string) | Images(ids: seq<ImageId>)

  /** The keyword arguments passed to on_enter / switch_to. */
  type Context = map<string, Value>

  /** A transition request: what a screen passes to the switch_to callback. */
  datatype Switch = Switch(target: string, context: Context)

  datatype Key = Space | Escape | OtherKey

  /**
   * Input events. For a touch event the position is where pygame's emulated mouse
   * pointer is at that moment (the buttons read pygame.mouse.get_pos()).
   */
  datatype Event =
    | MouseDown(x: int, y: int)
    | FingerDown(x: int, y: int)
    | KeyDown(key: Key)
    | OtherEvent
  {
    /** The point a button's is_clicked tests, if the event is a press. */
    function Press(): Option<(int, int)> {
      match this
      case MouseDown(x, y) => Some((x, y))
      case FingerDown(x, y) => Some((x, y))
      case _ => None
    }
  }

  /** context_data.get(key, default) for an integer entry. */
  function GetInt(ctx: Context, key: string, default: int): int
  {
    if key in ctx && ctx[key].Int? then ctx[key].i else default
  }

  /** context_data.get(key, []) for a list of images. */
  function GetImages(ctx: Context, key: string): seq<ImageId>
  {
    if key in ctx && ctx[key].Images? then ctx[key].ids else []
  }
}

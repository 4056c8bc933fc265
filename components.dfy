/**
 * The six component kinds declared in src/components.rs, as plain records. `f32`
 * fields are modelled as `real`: the core only copies and compares them.
 */
module Components {
  import opened Wrappers
  import opened Sprites

  /** Pixels per world unit (`PPU` in src/main.rs). */
  const PPU: real := 128.0

  /** `[f32; 4]`: an RGBA colour. */
  type Color = c: seq<real> | |c| == 4 witness [0.0, 0.0, 0.0, 0.0]

  /** `[f32; 2]`: a 2D vector. */
  type Vector2 = v: seq<real> | |v| == 2 witness [0.0, 0.0]

  datatype Pos = Pos(x: real, y: real)

  /** `d` is the velocity damping factor. */
  datatype Vel = Vel(x: real, y: real, d: real)

  /**
   * What to draw. `cachedSprite` memoises the registry lookup of `sId`; it is
   * `#[serde(skip)]`, so it never reaches a saved scene.
   */
  datatype Render = Render(
    sId: SpriteId,
    w: real,
    h: real,
    color: Color,
    layer: real,
    flipX: bool,
    flipY: bool,
    cachedSprite: Option<SpriteData>)
  {
    function R(): real { color[0] }
    function G(): real { color[1] }
    function B(): real { color[2] }
    function A(): real { color[3] }
  }

  datatype CameraAnchor = CameraAnchor(zoom: real, smoothness: real)

  datatype Player = Player(speed: real)

  datatype Collider = Collider(w: real, h: real, isStatic: bool)

  /** The four channel accessors read back the colour, channel by channel, in RGBA order. */
  lemma ChannelsAreColor(r: Render)
    ensures [r.R(), r.G(), r.B(), r.A()] == r.color
  {
  }
}

/**
 * The records that the Aseprite exporter's JSON sheet description is parsed into
 * (src/aseprite.rs). JSON parsing itself is not modelled: a sprite sheet is handed
 * to the loader already parsed, as an `AseData` value.
 */
module Aseprite {
  import opened Wrappers

  /** A rectangle in sheet pixels. */
  datatype AseRect = AseRect(x: real, y: real, w: real, h: real)

  /** One exported frame: where it sits in the sheet and how long it shows, in milliseconds. */
  datatype AseFrame = AseFrame(frame: AseRect, duration: int)

  /** A named animation over the inclusive frame range `from..=to`. */
  datatype AseTag = AseTag(name: string, from: nat, to: nat)

  datatype AseSliceKey = AseSliceKey(frame: nat, bounds: AseRect)

  /** A named sub-rectangle of the sheet; only its first key is used. */
  datatype AseSlice = AseSlice(name: string, keys: seq<AseSliceKey>)

  /** `frameTags` and `slices` may be absent from the JSON. */
  datatype AseMeta = AseMeta(frameTags: Option<seq<AseTag>>, slices: Option<seq<AseSlice>>)

  datatype AseData = AseData(frames: seq<AseFrame>, meta: AseMeta)
}

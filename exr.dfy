/**
 * The values the image codec hands to the tools: the display window of a
 * header and the four-component `Rgba` pixel. Samples (OpenEXR `half`) are
 * modelled as exact reals.
 */
module Exr {

  /** A header's display window, inclusive on both corners. */
  datatype Window = Window(minX: int, minY: int, maxX: int, maxY: int)
  {
    /** The codec only produces windows whose corners are ordered. */
    predicate Valid()
    {
      minX <= maxX && minY <= maxY
    }

    /** `max.x - min.x + 1`, the width both tools compute from the window. */
    function Width(): (w: nat)
      requires Valid()
      ensures w >= 1
    {
      maxX - minX + 1
    }

    /** `max.y - min.y + 1`, the height both tools compute from the window. */
    function Height(): (h: nat)
      requires Valid()
      ensures h >= 1
    {
      maxY - minY + 1
    }
  }

  /** OpenEXR's `Rgba`: four samples laid out as the half slots 0 = r, 1 = g, 2 = b, 3 = a. */
  datatype Rgba = Rgba(r: real, g: real, b: real, a: real)

  /** The zero pixel `{0, 0, 0, 0}`. */
  const Transparent: Rgba := Rgba(0.0, 0.0, 0.0, 0.0)

  /** The sample stored in half slot `slot` of a pixel. */
  function Slot(p: Rgba, slot: nat): real
    requires slot < 4
  {
    match slot
    case 0 => p.r
    case 1 => p.g
    case 2 => p.b
    case _ => p.a
  }

  /** The pixel with half slot `slot` replaced by `v`. */
  function WithSlot(p: Rgba, slot: nat, v: real): (q: Rgba)
    requires slot < 4
    ensures Slot(q, slot) == v
    ensures forall s: nat :: s < 4 && s != slot ==> Slot(q, s) == Slot(p, s)
  {
    match slot
    case 0 => p.(r := v)
    case 1 => p.(g := v)
    case 2 => p.(b := v)
    case _ => p.(a := v)
  }

  /**
   * The factor `1 / imageCount` both tools scale by. For no images the tool
   * divides by zero and obtains an infinite factor, which then scales
   * nothing because there is nothing to scale; the model picks 0.
   */
  function Reciprocal(count: nat): (m: real)
    ensures count > 0 ==> m * count as real == 1.0
  {
    if count == 0 then 0.0 else 1.0 / count as real
  }
}

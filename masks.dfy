/** The mask identities of the game. */
module Masks {

  /** The versions of the game disagree on the name of the mask that never
      gets a visual: the mask stack uses `Default`, the mask data table uses
      `Wolf`. Both are kept, as distinct identities. */
  datatype MaskType = Default | Wolf | Mask1 | Mask2 | Mask3 | Mask4

  /** The enum's own name, as `ToString()` prints it. */
  function TypeName(m: MaskType): (r: string)
    ensures |r| > 0
  {
    match m
    case Default => "Default"
    case Wolf => "Wolf"
    case Mask1 => "Mask1"
    case Mask2 => "Mask2"
    case Mask3 => "Mask3"
    case Mask4 => "Mask4"
  }
}

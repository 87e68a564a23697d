/** A block that nothing may enter. It has no fields, so asking it changes nothing. */
module ImmovableBlock {
  import opened Interaction

  /** Always blocks movement, whatever the request says. */
  function CanPlayerMoveHere(interactionData: InteractionData): (r: bool)
    ensures !r
  {
    false
  }
}

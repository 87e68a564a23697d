/** The request an interactable block is asked about when something tries to
    enter its cell. */
module Interaction {
  import opened Common
  import opened Masks
  import opened Geometry

  datatype InteractionData = InteractionData(
    direction: Vec3,
    playerCurrentPosition: Vec3,
    playerTargetPosition: Vec3,
    playerObject: ObjectId,
    currentMask: MaskType)
}

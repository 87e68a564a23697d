/** A door that lets a mover through iff the mask table admits the mover's
    mask for the door's own mask. */
module MaskDoor {
  import opened Common
  import opened Masks
  import opened MaskData
  import opened Interaction

  datatype MaskDoor = MaskDoor(maskDataSO: MaskDataSO, currentMask: MaskType)

  /** The answer, and whether `onDoorUnlock` was invoked. */
  datatype DoorAnswer = DoorAnswer(canMove: bool, unlockFired: bool)

  /** The door's mask is the table key, the mover's mask the candidate. */
  function MatchMask(door: MaskDoor, toMatch: MaskType): (r: bool)
    ensures r <==> (exists i :: 0 <= i < |door.maskDataSO.matches|
                             && door.maskDataSO.matches[i].mask == door.currentMask
                             && toMatch in door.maskDataSO.matches[i].matches)
  {
    MaskMatch(door.maskDataSO, door.currentMask, toMatch)
  }

  /** Allows iff the masks match; the unlock event fires exactly on the allowing
      path, and on the other path nothing happens. */
  function CanPlayerMoveHere(door: MaskDoor, interactionData: InteractionData): (r: DoorAnswer)
    ensures r.canMove <==> MatchMask(door, interactionData.currentMask)
    ensures r.unlockFired <==> r.canMove
  {
    var canBlockMove := MatchMask(door, interactionData.currentMask);
    if canBlockMove then DoorAnswer(true, true) else DoorAnswer(false, false)
  }

  /** Only the request's mask matters, not its direction, positions or object. */
  lemma AnswerDependsOnlyOnMask(door: MaskDoor, a: InteractionData, b: InteractionData)
    requires a.currentMask == b.currentMask
    ensures CanPlayerMoveHere(door, a) == CanPlayerMoveHere(door, b)
  {
  }

  /** A door keyed by Wolf whose only row admits Mask1: Mask1 passes and
      fires the unlock event, Mask2 is refused and fires nothing. */
  lemma WolfDoorScenario(a: InteractionData, b: InteractionData)
    requires a.currentMask == Mask1 && b.currentMask == Mask2
    ensures var door := MaskDoor(MaskDataSO([], [MaskMatches(Wolf, [Mask1])]), Wolf);
      CanPlayerMoveHere(door, a) == DoorAnswer(true, true)
      && CanPlayerMoveHere(door, b) == DoorAnswer(false, false)
  {
    var door := MaskDoor(MaskDataSO([], [MaskMatches(Wolf, [Mask1])]), Wolf);
    assert RowAdmits(door.maskDataSO.matches[0], Wolf, Mask1);
  }
}

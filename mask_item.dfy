/** A mask dropped into the world as an item the player can pick up again.
    Its flags decide when a re-equip may start; the equip itself runs after
    an optional tween and either consumes the item or releases it again. */
module MaskItemModel {
  import opened Masks
  import opened Geometry
  import opened MaskVisualControllerModel

  class MaskItem {
    var maskType: MaskType
    var orderIndex: int
    var visualLocalPosition: Vec3
    var visualLocalScale: Vec3

    /** Set in the inspector; never changed at run time. */
    const canBeReequipped: bool
    var canEquipNow: bool

    /** Whether the player-mask, collider and visual-child references are set. */
    var hasPlayerMask: bool
    var hasItemCollider: bool
    var hasVisualTransform: bool

    /** The visual child's local transform and the root's local scale. */
    var visualChildPosition: Vec3
    var visualChildScale: Vec3
    var rootScale: Vec3

    var isInitialized: bool
    var isAnimating: bool

    /** A drop tween or an equip tween has been started and not yet completed. */
    var dropTweenPending: bool
    var equipTweenPending: bool
    /** How often the player's mask system was asked to equip this item's mask. */
    var equipRequests: nat
    /** The item's game object was destroyed after a successful equip. */
    var destroyed: bool

    constructor (reequippable: bool, equipNow: bool, playerMask: bool, collider: bool, visual: bool)
      ensures canBeReequipped == reequippable && canEquipNow == equipNow
      ensures hasPlayerMask == playerMask && hasItemCollider == collider && hasVisualTransform == visual
      ensures !isInitialized && !isAnimating && !dropTweenPending && !equipTweenPending
      ensures equipRequests == 0 && !destroyed
    {
      maskType := Default;
      orderIndex := 0;
      visualLocalPosition, visualLocalScale := Zero, One;
      canBeReequipped := reequippable;
      canEquipNow := equipNow;
      hasPlayerMask, hasItemCollider, hasVisualTransform := playerMask, collider, visual;
      visualChildPosition, visualChildScale, rootScale := Zero, One, One;
      isInitialized, isAnimating := false, false;
      dropTweenPending, equipTweenPending := false, false;
      equipRequests := 0;
      destroyed := false;
    }

    /** The condition under which a re-equip may start. */
    predicate CanStartEquip()
      reads this
    {
      canBeReequipped && hasPlayerMask && canEquipNow && !isAnimating
    }

    /** Takes over the visual data of the mask it was dropped from. `hasChild`
        says whether the item has a child to use as visual; `playerMaskFound`
        and `colliderFound` answer the scene and component searches. */
    method Initialize(type_: MaskType, visualData: MaskVisualData,
                      hasChild: bool, playerMaskFound: bool, colliderFound: bool)
      modifies this`maskType, this`orderIndex, this`visualLocalPosition, this`visualLocalScale
      modifies this`hasVisualTransform, this`visualChildPosition, this`visualChildScale, this`rootScale
      modifies this`isInitialized, this`hasPlayerMask, this`hasItemCollider
      ensures maskType == type_ && orderIndex == visualData.orderIndex
      ensures visualLocalPosition == visualData.localPosition && visualLocalScale == visualData.localScale
      ensures hasVisualTransform == (old(hasVisualTransform) || hasChild)
      ensures hasVisualTransform ==>
        visualChildPosition == visualData.localPosition && visualChildScale == visualData.localScale
        && rootScale == One
      ensures !hasVisualTransform ==>
        visualChildPosition == old(visualChildPosition) && visualChildScale == old(visualChildScale)
        && rootScale == old(rootScale)
      ensures isInitialized
      ensures hasPlayerMask == (old(hasPlayerMask) || playerMaskFound)
      ensures hasItemCollider == (old(hasItemCollider) || colliderFound)
    {
      maskType := type_;
      orderIndex := visualData.orderIndex;
      visualLocalPosition := visualData.localPosition;
      visualLocalScale := visualData.localScale;
      if !hasVisualTransform && hasChild {
        hasVisualTransform := true;
      }
      if hasVisualTransform {
        visualChildPosition := visualLocalPosition;
        visualChildScale := visualLocalScale;
        rootScale := One;
      }
      isInitialized := true;
      if !hasPlayerMask {
        hasPlayerMask := playerMaskFound;
      }
      if !hasItemCollider {
        hasItemCollider := colliderFound;
      }
    }

    /** The first part of `Start`, one frame after spawning: with a visual
        child the drop tween begins and the item counts as animating. */
    method StartDropAnimation()
      modifies this`isAnimating, this`dropTweenPending
      ensures hasVisualTransform ==> isAnimating && dropTweenPending
      ensures !hasVisualTransform ==>
        isAnimating == old(isAnimating) && dropTweenPending == old(dropTweenPending)
    {
      if hasVisualTransform {
        isAnimating := true;
        dropTweenPending := true;
      }
    }

    /** The drop tween's completion callback. */
    method OnDropTweenComplete()
      requires dropTweenPending
      modifies this`isAnimating, this`dropTweenPending
      ensures !isAnimating && !dropTweenPending
    {
      isAnimating := false;
      dropTweenPending := false;
    }

    /** The overlap test: `playerOverlapping` is the physics box query's
        answer. Equipping is allowed only once the player has stepped off;
        without a collider nothing changes. */
    method CheckForPlayerOverlap(playerOverlapping: bool)
      modifies this`canEquipNow
      ensures hasItemCollider ==> canEquipNow == !playerOverlapping
      ensures !hasItemCollider ==> canEquipNow == old(canEquipNow)
    {
      if !hasItemCollider {
        return;
      }
      var playerIsOverlapping := playerOverlapping;
      canEquipNow := !playerIsOverlapping;
    }

    /** Starts re-equipping when every gate is open and reports whether it did.
        `equipSucceeded` is what the player's mask system answers when the
        equip is carried out at once (no visual child to animate). */
    method ReequipMask(equipSucceeded: bool) returns (started: bool)
      modifies this`isAnimating, this`equipTweenPending, this`equipRequests, this`destroyed
      ensures started == old(CanStartEquip())
      ensures !started ==>
        isAnimating == old(isAnimating) && equipTweenPending == old(equipTweenPending)
        && equipRequests == old(equipRequests) && destroyed == old(destroyed)
      ensures started ==> Equipping(old(equipRequests), old(destroyed), equipSucceeded)
      ensures started ==> (!CanStartEquip() <==> hasVisualTransform || equipSucceeded)
    {
      if !canBeReequipped {
        return false;
      }
      if !hasPlayerMask {
        return false;
      }
      if !canEquipNow {
        return false;
      }
      if isAnimating {
        return false;
      }
      EquipAnimation(equipSucceeded);
      return true;
    }

    /** The state `EquipAnimation` leaves: with a visual child, animating with
        the equip tween pending; without one, the equip has been asked for
        once and either destroyed the item or ended the animation. */
    ghost predicate Equipping(requests0: nat, destroyed0: bool, equipSucceeded: bool)
      reads this
    {
      (hasVisualTransform ==>
         isAnimating && equipTweenPending && equipRequests == requests0 && destroyed == destroyed0)
      && (!hasVisualTransform ==>
            equipRequests == requests0 + 1
            && (equipSucceeded ==> destroyed && isAnimating)
            && (!equipSucceeded ==> !isAnimating && destroyed == destroyed0))
    }

    method EquipAnimation(equipSucceeded: bool)
      modifies this`isAnimating, this`equipTweenPending, this`equipRequests, this`destroyed
      ensures Equipping(old(equipRequests), old(destroyed), equipSucceeded)
      ensures !hasVisualTransform ==> equipTweenPending == old(equipTweenPending)
    {
      isAnimating := true;
      if hasVisualTransform {
        equipTweenPending := true;
      } else {
        var success := equipSucceeded;
        equipRequests := equipRequests + 1;
        if success {
          destroyed := true;
        } else {
          isAnimating := false;
        }
      }
    }

    /** The equip tween's completion callback: the equip is asked for now;
        success destroys the item, failure ends the animation. */
    method OnEquipTweenComplete(success: bool)
      requires equipTweenPending
      modifies this`isAnimating, this`equipTweenPending, this`equipRequests, this`destroyed
      ensures !equipTweenPending && equipRequests == old(equipRequests) + 1
      ensures success ==> destroyed && isAnimating == old(isAnimating)
      ensures !success ==> !isAnimating && destroyed == old(destroyed)
    {
      equipTweenPending := false;
      equipRequests := equipRequests + 1;
      if success {
        destroyed := true;
      } else {
        isAnimating := false;
      }
    }

    /** A collider entering: only the player, and only while re-equippable
        and idle, tries to re-equip. */
    method OnTriggerEnter(otherIsPlayer: bool, equipSucceeded: bool)
      modifies this`isAnimating, this`equipTweenPending, this`equipRequests, this`destroyed
      ensures var ignored := !canBeReequipped || old(isAnimating) || !otherIsPlayer;
        ignored || !old(CanStartEquip()) ==>
          isAnimating == old(isAnimating) && equipTweenPending == old(equipTweenPending)
          && equipRequests == old(equipRequests) && destroyed == old(destroyed)
      ensures otherIsPlayer && old(CanStartEquip()) ==>
        Equipping(old(equipRequests), old(destroyed), equipSucceeded)
    {
      if !canBeReequipped || isAnimating {
        return;
      }
      if otherIsPlayer {
        var _ := ReequipMask(equipSucceeded);
      }
    }

    /** A collider leaving: only the player, and only while re-equippable and
        idle, triggers a fresh overlap test (`stillOverlapping` answers it). */
    method OnTriggerExit(otherIsPlayer: bool, stillOverlapping: bool)
      modifies this`canEquipNow
      ensures canBeReequipped && !isAnimating && otherIsPlayer && hasItemCollider ==>
        canEquipNow == !stillOverlapping
      ensures !(canBeReequipped && !isAnimating && otherIsPlayer && hasItemCollider) ==>
        canEquipNow == old(canEquipNow)
    {
      if !canBeReequipped || isAnimating {
        return;
      }
      if otherIsPlayer {
        CheckAfterExit(stillOverlapping);
      }
    }

    /** The deferred re-check after the player leaves. */
    method CheckAfterExit(stillOverlapping: bool)
      modifies this`canEquipNow
      ensures hasItemCollider ==> canEquipNow == !stillOverlapping
      ensures !hasItemCollider ==> canEquipNow == old(canEquipNow)
    {
      CheckForPlayerOverlap(stillOverlapping);
    }

    method ForceEnableEquip()
      modifies this`canEquipNow
      ensures canEquipNow
    {
      canEquipNow := true;
    }

    method ForceDisableEquip()
      modifies this`canEquipNow
      ensures !canEquipNow
    {
      canEquipNow := false;
    }
  }
}

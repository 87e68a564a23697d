/** A pressure plate: tracks the colliders standing on it, is pressed by the
    first and released when the last leaves, and may be one-shot. */
module TriggerModel {
  import opened Common

  /** `1 << layer` in C#, where the shift count of an `int` is taken mod 32. */
  function LayerBit(layer: int): bv32 {
    (1 as bv32) << ((layer % 32) as bv5)
  }

  /** `triggerLayers == (triggerLayers | (1 << layer))`: the layer's bit is set. */
  function IsLayerInMask(triggerLayers: bv32, layer: int): (r: bool)
    ensures r <==> triggerLayers & LayerBit(layer) != 0
  {
    triggerLayers == (triggerLayers | LayerBit(layer))
  }

  /** The default mask `~0` accepts every layer. */
  lemma EverythingAcceptsAllLayers(layer: int)
    ensures IsLayerInMask(!(0 as bv32), layer)
  {
  }

  /** `List.Remove`: drops the first occurrence of `x`, if any. */
  function RemoveFirst(s: seq<ObjectId>, x: ObjectId): seq<ObjectId> {
    if |s| == 0 then []
    else if s[0] == x then s[1..]
    else [s[0]] + RemoveFirst(s[1..], x)
  }

  /** On a duplicate-free list, removing `x` leaves exactly the other
      elements, still without duplicates, and one fewer if `x` was there. */
  lemma {:induction false} RemoveFirstSpec(s: seq<ObjectId>, x: ObjectId)
    requires NoDuplicates(s)
    ensures NoDuplicates(RemoveFirst(s, x))
    ensures forall y :: y in RemoveFirst(s, x) <==> y in s && y != x
    ensures x in s ==> |RemoveFirst(s, x)| == |s| - 1
    ensures x !in s ==> RemoveFirst(s, x) == s
  {
    if |s| > 0 {
      assert forall i, j :: 0 <= i < j < |s| - 1 ==> s[1..][i] == s[i + 1] && s[1..][j] == s[j + 1];
      RemoveFirstSpec(s[1..], x);
      if s[0] != x {
        var r := RemoveFirst(s[1..], x);
        assert s[0] !in s[1..];
        assert s[0] !in r;
        forall i, j | 0 <= i < j < |[s[0]] + r|
          ensures ([s[0]] + r)[i] != ([s[0]] + r)[j]
        {
          if i > 0 {
            assert ([s[0]] + r)[i] == r[i - 1];
          }
          assert ([s[0]] + r)[j] == r[j - 1];
        }
        assert s == [s[0]] + s[1..];
      } else {
        assert s == [s[0]] + s[1..];
        assert x !in s[1..];
      }
    }
  }

  class Trigger {
    const isOneTimeTrigger: bool
    const triggerLayers: bv32
    var isPressed: bool
    var hasBeenTriggered: bool
    var currentColliders: seq<ObjectId>
    /** How many times `OnTriggerActivated` / `OnTriggerDeactivated` have been invoked. */
    var activatedEvents: nat
    var deactivatedEvents: nat

    /** No collider is tracked twice, and "has been triggered" means exactly
        "a one-time trigger that is pressed". */
    ghost predicate Valid()
      reads this
    {
      NoDuplicates(currentColliders)
      && hasBeenTriggered == (isOneTimeTrigger && isPressed)
    }

    constructor (oneTime: bool, layers: bv32)
      ensures Valid() && isOneTimeTrigger == oneTime && triggerLayers == layers
      ensures !isPressed && !hasBeenTriggered && currentColliders == []
      ensures activatedEvents == 0 && deactivatedEvents == 0
    {
      isOneTimeTrigger := oneTime;
      triggerLayers := layers;
      isPressed := false;
      hasBeenTriggered := false;
      currentColliders := [];
      activatedEvents := 0;
      deactivatedEvents := 0;
    }

    /** A spent one-time trigger ignores every entry. */
    predicate Spent()
      reads this
    {
      isOneTimeTrigger && hasBeenTriggered
    }

    /** `other` (on layer `layer`) starts overlapping the plate. */
    method OnTriggerEnter(other: ObjectId, layer: int)
      requires Valid()
      modifies this
      ensures Valid()
      ensures var accepted := IsLayerInMask(triggerLayers, layer) && !old(Spent())
                              && other !in old(currentColliders);
        && currentColliders == (if accepted then old(currentColliders) + [other] else old(currentColliders))
        && var fires := accepted && |old(currentColliders)| == 0 && !old(isPressed);
           && isPressed == (old(isPressed) || fires)
           && activatedEvents == old(activatedEvents) + (if fires then 1 else 0)
           && deactivatedEvents == old(deactivatedEvents)
    {
      if !IsLayerInMask(triggerLayers, layer) {
        return;
      }
      if isOneTimeTrigger && hasBeenTriggered {
        return;
      }
      if other !in currentColliders {
        AppendFreshKeepsNoDuplicates(currentColliders, other);
        currentColliders := currentColliders + [other];
        if |currentColliders| == 1 {
          ActivateTrigger();
        }
      }
    }

    /** `other` stops overlapping the plate; `stillCovered` is the upward raycast
        of `checkColliders`. */
    method OnTriggerExit(other: ObjectId, stillCovered: bool)
      requires Valid()
      modifies this
      ensures Valid()
      ensures other !in old(currentColliders) ==>
        currentColliders == old(currentColliders) && isPressed == old(isPressed)
      ensures currentColliders == RemoveFirst(old(currentColliders), other)
      ensures var releases := other in old(currentColliders) && |currentColliders| == 0
                              && !isOneTimeTrigger && !stillCovered && old(isPressed);
        && isPressed == (old(isPressed) && !releases)
        && deactivatedEvents == old(deactivatedEvents) + (if releases then 1 else 0)
        && activatedEvents == old(activatedEvents)
    {
      RemoveFirstSpec(currentColliders, other);
      if other in currentColliders {
        currentColliders := RemoveFirst(currentColliders, other);
        if |currentColliders| == 0 && !isOneTimeTrigger {
          if stillCovered {
            return;
          }
          DeactivateTrigger();
        }
      }
    }

    /** Presses the plate unless it is already pressed. */
    method ActivateTrigger()
      requires Valid()
      modifies this`isPressed, this`hasBeenTriggered, this`activatedEvents
      ensures Valid()
      ensures isPressed
      ensures hasBeenTriggered == (isOneTimeTrigger || old(hasBeenTriggered))
      ensures activatedEvents == old(activatedEvents) + (if old(isPressed) then 0 else 1)
    {
      if isPressed {
        return;
      }
      isPressed := true;
      if isOneTimeTrigger {
        hasBeenTriggered := true;
      }
      activatedEvents := activatedEvents + 1;
    }

    /** Releases the plate if it is pressed. */
    method DeactivateTrigger()
      requires Valid() && !isOneTimeTrigger
      modifies this`isPressed, this`deactivatedEvents
      ensures Valid()
      ensures !isPressed
      ensures deactivatedEvents == old(deactivatedEvents) + (if old(isPressed) then 1 else 0)
    {
      if !isPressed {
        return;
      }
      isPressed := false;
      deactivatedEvents := deactivatedEvents + 1;
    }

    /** Re-arms a one-time trigger; does nothing to a repeating one. */
    method ResetTrigger()
      requires Valid()
      modifies this
      ensures Valid()
      ensures isOneTimeTrigger ==> !isPressed && !hasBeenTriggered && currentColliders == []
      ensures !isOneTimeTrigger ==>
        isPressed == old(isPressed) && hasBeenTriggered == old(hasBeenTriggered)
        && currentColliders == old(currentColliders)
      ensures activatedEvents == old(activatedEvents) && deactivatedEvents == old(deactivatedEvents)
    {
      if isOneTimeTrigger {
        hasBeenTriggered := false;
        isPressed := false;
        currentColliders := [];
      }
    }

    /** Presses the plate from a script, unless it is a spent one-time trigger. */
    method ActivateFromExternal()
      requires Valid()
      modifies this
      ensures Valid()
      ensures currentColliders == old(currentColliders)
      ensures isPressed == (old(isPressed) || !old(Spent()))
      ensures activatedEvents == old(activatedEvents) + (if !old(isPressed) && !old(Spent()) then 1 else 0)
      ensures deactivatedEvents == old(deactivatedEvents)
    {
      if isOneTimeTrigger && hasBeenTriggered {
        return;
      }
      ActivateTrigger();
    }

    /** Releases the plate from a script; a one-time trigger ignores this. */
    method DeactivateFromExternal()
      requires Valid()
      modifies this
      ensures Valid()
      ensures currentColliders == old(currentColliders)
      ensures isPressed == (old(isPressed) && isOneTimeTrigger)
      ensures deactivatedEvents == old(deactivatedEvents) + (if old(isPressed) && !isOneTimeTrigger then 1 else 0)
      ensures activatedEvents == old(activatedEvents)
    {
      if isOneTimeTrigger {
        return;
      }
      DeactivateTrigger();
    }
  }
}

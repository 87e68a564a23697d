/** An animal the player eats by walking into it. */
module AnimalModel {
  import opened Masks
  import opened Interaction
  import opened SheepCounterModel

  class Animal {
    const animalType: MaskType
    var sheepCounter: SheepCounter?
    var isDead: bool
    /** How many times `OnEaten` has been invoked. */
    var eatenEvents: nat
    /** How many times this animal has called `EatAnimal` on the counter. */
    var eatCalls: nat
    /** The delayed self-destruction has been started. */
    var destroyScheduled: bool

    /** The animal is eaten at most once: no event or counter call before
        death, at most one of each after. */
    ghost predicate Valid()
      reads this
    {
      eatenEvents <= 1 && eatCalls <= eatenEvents
      && (!isDead ==> eatenEvents == 0 && !destroyScheduled)
      && (isDead ==> eatenEvents == 1)
    }

    constructor (t: MaskType)
      ensures Valid() && animalType == t && sheepCounter == null
      ensures !isDead && eatenEvents == 0 && eatCalls == 0 && !destroyScheduled
    {
      animalType := t;
      sheepCounter := null;
      isDead := false;
      eatenEvents := 0;
      eatCalls := 0;
      destroyScheduled := false;
    }

    /** Takes the shared counter (passed in, instead of the global instance)
        and registers exactly one animal with it. */
    method Start(counter: SheepCounter)
      modifies this, counter
      ensures sheepCounter == counter
      ensures counter.totalAnimals == old(counter.totalAnimals) + 1
      ensures counter.currentAnimalsEaten == old(counter.currentAnimalsEaten)
      ensures counter.allEatenEvents == old(counter.allEatenEvents)
      ensures isDead == old(isDead) && eatenEvents == old(eatenEvents)
      ensures eatCalls == old(eatCalls) && destroyScheduled == old(destroyScheduled)
    {
      sheepCounter := counter;
      sheepCounter.RegisterAnimal();
    }

    /** The player may always enter: the mask check in the source is commented out. */
    function CanPlayerMoveHere(interactionData: InteractionData): (r: bool)
      ensures r
    {
      true
    }

    /** A Player-tagged collider entering a live animal kills it, fires
        `OnEaten` and tells the counter once. A null counter (Start not yet run)
        throws after the first two steps. */
    method OnTriggerEnter(otherIsPlayer: bool)
      requires Valid()
      modifies this, sheepCounter
      ensures Valid()
      ensures sheepCounter == old(sheepCounter)
      ensures old(isDead) || !otherIsPlayer ==>
        isDead == old(isDead) && eatenEvents == old(eatenEvents) && eatCalls == old(eatCalls)
        && destroyScheduled == old(destroyScheduled)
        && (sheepCounter != null ==> unchanged(sheepCounter))
      ensures !old(isDead) && otherIsPlayer ==> isDead && eatenEvents == 1
      ensures !old(isDead) && otherIsPlayer && sheepCounter != null ==>
        eatCalls == 1 && destroyScheduled
        && sheepCounter.currentAnimalsEaten == old(sheepCounter.currentAnimalsEaten) + 1
        && sheepCounter.totalAnimals == old(sheepCounter.totalAnimals)
        && sheepCounter.allEatenEvents == old(sheepCounter.allEatenEvents)
             + (if old(sheepCounter.currentAnimalsEaten) + 1 >= old(sheepCounter.totalAnimals) then 1 else 0)
      ensures !old(isDead) && otherIsPlayer && sheepCounter == null ==>
        eatCalls == 0 && !destroyScheduled
    {
      if isDead {
        return;
      }
      if otherIsPlayer {
        isDead := true;
        eatenEvents := eatenEvents + 1;
        if sheepCounter == null {
          return;
        }
        var _ := sheepCounter.EatAnimal();
        eatCalls := eatCalls + 1;
        destroyScheduled := true;
      }
    }
  }
}

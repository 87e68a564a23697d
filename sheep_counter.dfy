/** Counts registered and eaten animals and announces when all are eaten. */
module SheepCounterModel {

  /** Whether `OnAllAnimalsEaten` fires on an `EatAnimal` call that leaves the
      eaten count at `eatenAfter`. */
  predicate FiresAllEaten(total: int, eatenAfter: int) {
    eatenAfter >= total
  }

  /** The firings of `k` consecutive `EatAnimal` calls starting from an eaten
      count of `eaten0` with `total` animals registered, call by call. */
  function FireTrace(total: int, eaten0: int, k: nat): (r: seq<bool>)
    ensures |r| == k
  {
    if k == 0 then [] else FireTrace(total, eaten0, k - 1) + [FiresAllEaten(total, eaten0 + k)]
  }

  /** With `n` registrations before any eat, the event fires on call `i`
      (counting from 0) iff `i + 1 >= n`: first on the n-th eat, then on every
      later one, since nothing ever stops it. */
  lemma {:induction false} FireTraceFromZero(n: nat, k: nat)
    ensures forall i :: 0 <= i < k ==> (FireTrace(n, 0, k)[i] <==> i + 1 >= n)
  {
    if k > 0 {
      FireTraceFromZero(n, k - 1);
      var t := FireTrace(n, 0, k - 1);
      assert FireTrace(n, 0, k) == t + [FiresAllEaten(n, k)];
      forall i | 0 <= i < k
        ensures FireTrace(n, 0, k)[i] <==> i + 1 >= n
      {
        if i < k - 1 {
          assert FireTrace(n, 0, k)[i] == t[i];
        }
      }
    }
  }

  class SheepCounter {
    var totalAnimals: int
    var currentAnimalsEaten: int
    /** How many times `OnAllAnimalsEaten` has been invoked. */
    var allEatenEvents: nat

    constructor ()
      ensures totalAnimals == 0 && currentAnimalsEaten == 0 && allEatenEvents == 0
    {
      totalAnimals := 0;
      currentAnimalsEaten := 0;
      allEatenEvents := 0;
    }

    method EatAnimal() returns (fired: bool)
      modifies this
      ensures currentAnimalsEaten == old(currentAnimalsEaten) + 1
      ensures totalAnimals == old(totalAnimals)
      ensures fired <==> FiresAllEaten(totalAnimals, currentAnimalsEaten)
      ensures allEatenEvents == old(allEatenEvents) + (if fired then 1 else 0)
    {
      currentAnimalsEaten := currentAnimalsEaten + 1;
      fired := currentAnimalsEaten >= totalAnimals;
      if fired {
        allEatenEvents := allEatenEvents + 1;
      }
    }

    method RegisterAnimal()
      modifies this
      ensures totalAnimals == old(totalAnimals) + 1
      ensures currentAnimalsEaten == old(currentAnimalsEaten)
      ensures allEatenEvents == old(allEatenEvents)
    {
      totalAnimals := totalAnimals + 1;
    }
  }
}

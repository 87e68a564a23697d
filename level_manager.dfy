/** Moves to the next level when all animals are eaten, reloads on failure. */
module LevelManagerModel {
  import opened Common

  /** C#'s `%` on `int`: truncating division, so the remainder has the sign of
      the dividend (unlike Dafny's Euclidean `%`). */
  function CsRem(a: int, b: int): (r: int)
    requires b != 0
    ensures a >= 0 ==> 0 <= r < (if b > 0 then b else -b)
    ensures a < 0 ==> -(if b > 0 then b else -b) < r <= 0
    ensures a >= 0 && b > 0 ==> r == a % b
    ensures (a - r) % b == 0
  {
    var ab := if a >= 0 then a else -a;
    var bb := if b > 0 then b else -b;
    var m := ab % bb;
    DivisibleDifference(ab, bb);
    if a >= 0 then m else -m
  }

  /** What the magnitude remainder leaves is a multiple of the divisor, of either sign. */
  lemma DivisibleDifference(ab: nat, bb: int)
    requires bb > 0
    ensures (ab - ab % bb) % bb == 0 && (ab % bb - ab) % bb == 0
    ensures (ab - ab % bb) % (-bb) == 0 && (ab % bb - ab) % (-bb) == 0
  {
    var q := ab / bb;
    assert ab - ab % bb == q * bb;
    assert ab % bb - ab == (-q) * bb;
    assert q * bb == (-q) * (-bb);
    assert (-q) * bb == q * (-bb);
    MultipleHasNoRemainder(q, bb);
    MultipleHasNoRemainder(-q, bb);
    MultipleHasNoRemainder(-q, -bb);
    MultipleHasNoRemainder(q, -bb);
  }

  /** `k * d` leaves no remainder when divided by `d`. */
  lemma MultipleHasNoRemainder(k: int, d: int)
    requires d != 0
    ensures (k * d) % d == 0
  {
    var q := (k * d) / d;
    var j := k - q;
    assert j * d == (k * d) % d;
    NonZeroMultipleIsLarge(j, d);
  }

  /** A non-zero multiple of `d` is at least as large as `d` in magnitude. */
  lemma NonZeroMultipleIsLarge(j: int, d: int)
    ensures j != 0 ==> Mag(j * d) >= Mag(d)
  {
    if j != 0 {
      MagOfProduct(j, d);
      AtLeastOnce(Mag(j), Mag(d));
    }
  }

  /** The magnitude of a product is the product of the magnitudes. */
  lemma MagOfProduct(j: int, d: int)
    ensures Mag(j * d) == Mag(j) * Mag(d)
  {
    if j < 0 && d < 0 {
      assert j * d == (-j) * (-d);
    } else if j < 0 {
      assert j * d == -((-j) * d);
    } else if d < 0 {
      assert j * d == -(j * (-d));
    }
  }

  /** At least one copy of `b`. */
  lemma AtLeastOnce(a: nat, b: nat)
    requires a >= 1
    ensures a * b >= b
  {
    assert a * b == (a - 1) * b + b;
  }

  /** Magnitude of an integer. */
  function Mag(x: int): nat {
    if x >= 0 then x else -x
  }

  class LevelManager {
    var totalScenes: int
    var currentScene: int
    /** The scene index the delayed `LoadSceneWithDelay` coroutine will load, if one was started. */
    var scheduledLoad: Option<int>

    constructor ()
      ensures totalScenes == 0 && currentScene == 0 && scheduledLoad == None
    {
      totalScenes := 0;
      currentScene := 0;
      scheduledLoad := None;
    }

    /** Fixes six scenes and starts from the active scene's build index. */
    method Awake(activeBuildIndex: int)
      modifies this
      ensures totalScenes == 6 && currentScene == activeBuildIndex
      ensures scheduledLoad == old(scheduledLoad)
    {
      totalScenes := 6;
      currentScene := activeBuildIndex;
    }

    /** Advances to the next scene index, wrapping at `totalScenes`, and
        schedules that index for loading. */
    method OnAllAnimalsEaten()
      requires totalScenes > 0
      modifies this
      ensures totalScenes == old(totalScenes)
      ensures currentScene == CsRem(old(currentScene) + 1, totalScenes)
      ensures 0 <= old(currentScene) ==> 0 <= currentScene < totalScenes
      ensures scheduledLoad == Some(currentScene)
    {
      currentScene := currentScene + 1;
      currentScene := CsRem(currentScene, totalScenes);
      scheduledLoad := Some(currentScene);
    }

    /** Reloads the active scene; the scene index is left as it was. */
    method GotfuckedUp(activeBuildIndex: int)
      modifies this
      ensures currentScene == old(currentScene) && totalScenes == old(totalScenes)
      ensures scheduledLoad == Some(activeBuildIndex)
    {
      scheduledLoad := Some(activeBuildIndex);
    }
  }

  /** Levels cycle: from an in-range index the next one is its successor,
      except that the last scene wraps to the first. */
  lemma SceneIndexWraps(c: int, n: int)
    requires 0 <= c < n
    ensures CsRem(c + 1, n) == if c == n - 1 then 0 else c + 1
  {
  }
}

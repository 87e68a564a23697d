/** A pressure-plate effect that switches two lists of scene objects on and off. */
module SimpleActivateDeactivateModel {
  import opened Common

  /** The scene's objects and whether each is active. */
  class Scene {
    var active: map<ObjectId, bool>

    constructor (initial: map<ObjectId, bool>)
      ensures active == initial
    {
      active := initial;
    }
  }

  /** The scene after `SetActive(v)` on every non-null entry of `objs`, in order. */
  function SetAll(w: map<ObjectId, bool>, objs: seq<Option<ObjectId>>, v: bool): map<ObjectId, bool> {
    if |objs| == 0 then w
    else
      var w' := SetAll(w, objs[..|objs| - 1], v);
      match objs[|objs| - 1]
      case None => w'
      case Some(o) => w'[o := v]
  }

  /** Every listed object ends with `v`; null entries and unlisted objects are untouched. */
  lemma {:induction false} SetAllAt(w: map<ObjectId, bool>, objs: seq<Option<ObjectId>>, v: bool, o: ObjectId)
    ensures Some(o) in objs ==> o in SetAll(w, objs, v) && SetAll(w, objs, v)[o] == v
    ensures Some(o) !in objs ==> (o in SetAll(w, objs, v) <==> o in w)
    ensures Some(o) !in objs && o in w ==> SetAll(w, objs, v)[o] == w[o]
  {
    if |objs| > 0 {
      var p := objs[..|objs| - 1];
      SetAllAt(w, p, v, o);
      assert objs == p + [objs[|objs| - 1]];
    }
  }

  /** The scene after `OnTriggerActivated`: activate list on, then deactivate list off. */
  function AfterActivation(w: map<ObjectId, bool>, toActivate: seq<Option<ObjectId>>,
                           toDeactivate: seq<Option<ObjectId>>): map<ObjectId, bool> {
    SetAll(SetAll(w, toActivate, true), toDeactivate, false)
  }

  /** The scene after `OnTriggerDeactivated` with `deactivateOnExit`: the reverse. */
  function AfterDeactivation(w: map<ObjectId, bool>, toActivate: seq<Option<ObjectId>>,
                             toDeactivate: seq<Option<ObjectId>>): map<ObjectId, bool> {
    SetAll(SetAll(w, toActivate, false), toDeactivate, true)
  }

  /** After activation every object of the deactivate list is inactive (it runs
      second, so it wins for an object in both lists), every other object of
      the activate list is active, and every object in neither list is untouched. */
  lemma ActivationEffect(w: map<ObjectId, bool>, toActivate: seq<Option<ObjectId>>,
                         toDeactivate: seq<Option<ObjectId>>, o: ObjectId)
    ensures var r := AfterActivation(w, toActivate, toDeactivate);
      && (Some(o) in toDeactivate ==> o in r && !r[o])
      && (Some(o) in toActivate && Some(o) !in toDeactivate ==> o in r && r[o])
      && (Some(o) !in toActivate && Some(o) !in toDeactivate ==>
            (o in r <==> o in w) && (o in w ==> r[o] == w[o]))
  {
    SetAllAt(w, toActivate, true, o);
    SetAllAt(SetAll(w, toActivate, true), toDeactivate, false, o);
  }

  /** Deactivation reverses activation: the activate list ends inactive, the
      deactivate list active (it wins for an object in both); other objects
      are untouched. */
  lemma DeactivationEffect(w: map<ObjectId, bool>, toActivate: seq<Option<ObjectId>>,
                           toDeactivate: seq<Option<ObjectId>>, o: ObjectId)
    ensures var r := AfterDeactivation(w, toActivate, toDeactivate);
      && (Some(o) in toDeactivate ==> o in r && r[o])
      && (Some(o) in toActivate && Some(o) !in toDeactivate ==> o in r && !r[o])
      && (Some(o) !in toActivate && Some(o) !in toDeactivate ==>
            (o in r <==> o in w) && (o in w ==> r[o] == w[o]))
  {
    SetAllAt(w, toActivate, false, o);
    SetAllAt(SetAll(w, toActivate, false), toDeactivate, true, o);
  }

  /** Sets every non-null object of `objs` to `v`, one after another. */
  method SetEach(scene: Scene, objs: seq<Option<ObjectId>>, v: bool)
    modifies scene
    ensures scene.active == SetAll(old(scene.active), objs, v)
  {
    for i := 0 to |objs|
      invariant scene.active == SetAll(old(scene.active), objs[..i], v)
    {
      assert objs[..i + 1][..i] == objs[..i];
      var obj := objs[i];
      if obj.Some? {
        scene.active := scene.active[obj.value := v];
      }
    }
    assert objs[..|objs|] == objs;
  }

  class SimpleActivateDeactivate {
    const objectsToActivate: seq<Option<ObjectId>>
    const objectsToDeactivate: seq<Option<ObjectId>>
    const deactivateOnExit: bool

    constructor (toActivate: seq<Option<ObjectId>>, toDeactivate: seq<Option<ObjectId>>, onExit: bool)
      ensures objectsToActivate == toActivate && objectsToDeactivate == toDeactivate
      ensures deactivateOnExit == onExit
    {
      objectsToActivate := toActivate;
      objectsToDeactivate := toDeactivate;
      deactivateOnExit := onExit;
    }

    method OnTriggerActivated(scene: Scene)
      modifies scene
      ensures scene.active == AfterActivation(old(scene.active), objectsToActivate, objectsToDeactivate)
    {
      SetEach(scene, objectsToActivate, true);
      SetEach(scene, objectsToDeactivate, false);
    }

    method OnTriggerDeactivated(scene: Scene)
      modifies scene
      ensures !deactivateOnExit ==> scene.active == old(scene.active)
      ensures deactivateOnExit ==>
        scene.active == AfterDeactivation(old(scene.active), objectsToActivate, objectsToDeactivate)
    {
      if !deactivateOnExit {
        return;
      }
      SetEach(scene, objectsToActivate, false);
      SetEach(scene, objectsToDeactivate, true);
    }
  }
}

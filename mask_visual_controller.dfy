/** The stack of mask visuals drawn on the player: one visual per worn mask
    type (never for the default mask), laid out bottom to top with a growing
    offset and scale, and a cache of the layout for later drops. */
module MaskVisualControllerModel {
  import opened Common
  import opened Masks
  import opened Geometry
  import opened MaskData
  import opened PlayerMaskModel

  /** Where and how large one mask visual is drawn, and its layer. */
  datatype MaskVisualData = MaskVisualData(
    localPosition: Vec3,
    localScale: Vec3,
    orderIndex: nat,
    maskType: MaskType)

  /** A stack that shows nothing: empty, or the default mask alone. */
  predicate IsBare(stack: seq<MaskType>) {
    |stack| == 0 || (|stack| == 1 && stack[0] == Default)
  }

  /** The visuals that survive the removal pass: masks still on the stack,
      never the default mask. */
  function Retained(active: map<MaskType, ObjectId>, stack: seq<MaskType>): (r: map<MaskType, ObjectId>)
    ensures forall m :: m in r <==> m in active && m in stack && m != Default
    ensures forall m :: m in r ==> r[m] == active[m]
  {
    map m | m in active && m in stack && m != Default :: active[m]
  }

  /** Whether a mask on the stack ends up with a visual: not the default
      mask, and either its visual survived or it has a prefab to create one. */
  predicate GetsVisual(m: MaskType, retained: map<MaskType, ObjectId>, data: MaskDataSO) {
    m != Default && (m in retained || GetPrefab(data, m).Some?)
  }

  /** How many entries of `s` get a visual: the next free layer index after
      laying out `s`. */
  function CountGets(s: seq<MaskType>, retained: map<MaskType, ObjectId>, data: MaskDataSO): (n: nat)
    ensures n <= |s|
  {
    if s == [] then 0
    else CountGets(s[..|s|-1], retained, data) + (if GetsVisual(s[|s|-1], retained, data) then 1 else 0)
  }

  /** Laying out a longer stack never hands out fewer layers. */
  lemma {:induction false} CountGetsMonotone(s: seq<MaskType>, i: nat, j: nat,
                                             retained: map<MaskType, ObjectId>, data: MaskDataSO)
    requires i <= j <= |s|
    ensures CountGets(s[..i], retained, data) <= CountGets(s[..j], retained, data)
    ensures i < j && GetsVisual(s[i], retained, data) ==>
      CountGets(s[..i], retained, data) < CountGets(s[..j], retained, data)
    decreases j - i
  {
    if i < j {
      CountGetsMonotone(s, i + 1, j, retained, data);
      assert s[..i + 1][..i] == s[..i];
    }
  }

  class MaskVisualController {
    var playerMask: PlayerMask?
    const maskData: Option<MaskDataSO>
    const hasMaskParent: bool
    const positionOffset: Vec3
    const scaleIncrement: real
    const maxScale: real

    /** Type to visual object, type to cached layout, and the stack last drawn. */
    var activeMaskVisuals: map<MaskType, ObjectId>
    var maskVisualDataCache: map<MaskType, MaskVisualData>
    var currentVisualStack: seq<MaskType>
    /** The id the next instantiated visual receives. */
    var nextVisualId: ObjectId

    /** No visual for the default mask; every cached layout belongs to a live
        visual of the same type and sits at its layer's placement; visual ids
        are distinct and already handed out. */
    ghost predicate Valid()
      reads this
    {
      Default !in activeMaskVisuals
      && (forall m :: m in maskVisualDataCache ==>
            m in activeMaskVisuals && maskVisualDataCache[m] == Placement(maskVisualDataCache[m].orderIndex, m))
      && (forall m :: m in activeMaskVisuals ==> activeMaskVisuals[m] < nextVisualId)
      && Injective(activeMaskVisuals)
    }

    /** No two mask types share a visual object. */
    static predicate Injective(active: map<MaskType, ObjectId>) {
      forall a, b :: (a in active && b in active && active[a] == active[b]) ==> a == b
    }

    constructor (pm: PlayerMask?, data: Option<MaskDataSO>, parent: bool,
                 offset: Vec3, increment: real, maximum: real)
      ensures Valid()
      ensures playerMask == pm && maskData == data && hasMaskParent == parent
      ensures positionOffset == offset && scaleIncrement == increment && maxScale == maximum
      ensures activeMaskVisuals == map[] && maskVisualDataCache == map[] && currentVisualStack == []
    {
      playerMask := pm;
      maskData := data;
      hasMaskParent := parent;
      positionOffset, scaleIncrement, maxScale := offset, increment, maximum;
      activeMaskVisuals := map[];
      maskVisualDataCache := map[];
      currentVisualStack := [];
      nextVisualId := 0;
    }

    /** The layout of layer `i`: offset `i` times, scaled by `1 + i *
        scaleIncrement` but never beyond `maxScale`. */
    function Placement(i: nat, m: MaskType): (d: MaskVisualData)
      ensures d.orderIndex == i && d.maskType == m
      ensures d.localPosition == Scale(positionOffset, i as real)
      ensures d.localScale.x == d.localScale.y == d.localScale.z <= maxScale
      ensures 1.0 + scaleIncrement * i as real <= maxScale ==> d.localScale == Uniform(1.0 + scaleIncrement * i as real)
      ensures 1.0 + scaleIncrement * i as real > maxScale ==> d.localScale == Uniform(maxScale)
    {
      MaskVisualData(Scale(positionOffset, i as real),
                     Uniform(Min(1.0 + scaleIncrement * i as real, maxScale)), i, m)
    }

    /** A layout computed step by step as `UpdateVisuals` does is the layer's placement. */
    lemma PlacementIs(i: nat, m: MaskType, position: Vec3, scale: Vec3)
      requires position == Scale(positionOffset, i as real)
      requires scale == Uniform(Min(1.0 + scaleIncrement * i as real, maxScale))
      ensures MaskVisualData(position, scale, i, m) == Placement(i, m)
    {
    }

    /** The cache after laying out `s`: each visual-bearing entry gets the
        next layer, a later occurrence overwriting an earlier one. */
    function CacheOf(s: seq<MaskType>, retained: map<MaskType, ObjectId>, data: MaskDataSO): map<MaskType, MaskVisualData>
    {
      if s == [] then map[]
      else
        var prefix := s[..|s|-1];
        var m := s[|s|-1];
        var c := CacheOf(prefix, retained, data);
        if GetsVisual(m, retained, data) then c[m := Placement(CountGets(prefix, retained, data), m)] else c
    }

    /** Laying out one more mask of a stack on top of its prefix. */
    lemma CacheOfStep(s: seq<MaskType>, i: nat, retained: map<MaskType, ObjectId>, data: MaskDataSO)
      requires i < |s|
      ensures CountGets(s[..i + 1], retained, data)
        == CountGets(s[..i], retained, data) + (if GetsVisual(s[i], retained, data) then 1 else 0)
      ensures CacheOf(s[..i + 1], retained, data)
        == if GetsVisual(s[i], retained, data)
           then CacheOf(s[..i], retained, data)[s[i] := Placement(CountGets(s[..i], retained, data), s[i])]
           else CacheOf(s[..i], retained, data)
    {
      assert s[..i + 1][..i] == s[..i];
    }

    /** Exactly the masks on the stack that get a visual are cached. */
    lemma {:induction false} CacheOfKeys(s: seq<MaskType>, retained: map<MaskType, ObjectId>, data: MaskDataSO)
      ensures forall m :: m in CacheOf(s, retained, data) <==> m in s && GetsVisual(m, retained, data)
    {
      if s != [] {
        CacheOfKeys(s[..|s|-1], retained, data);
        assert s == s[..|s|-1] + [s[|s|-1]];
      }
    }

    /** Every cached entry is its own layer's placement, on a layer already handed out. */
    lemma {:induction false} CacheOfPlacement(s: seq<MaskType>, retained: map<MaskType, ObjectId>, data: MaskDataSO)
      ensures forall m :: m in CacheOf(s, retained, data) ==>
        CacheOf(s, retained, data)[m] == Placement(CacheOf(s, retained, data)[m].orderIndex, m)
        && CacheOf(s, retained, data)[m].orderIndex < CountGets(s, retained, data)
    {
      if s != [] {
        CacheOfPlacement(s[..|s|-1], retained, data);
      }
    }

    /** On a stack without repeats, the mask at position `i` is drawn on layer
        "number of visual-bearing masks below it": layers 0, 1, 2, ... follow
        the stack, and a mask without a visual uses no layer. */
    lemma {:induction false} CacheOfOrder(s: seq<MaskType>, retained: map<MaskType, ObjectId>, data: MaskDataSO)
      requires NoDuplicates(s)
      ensures forall i :: 0 <= i < |s| && GetsVisual(s[i], retained, data) ==>
        s[i] in CacheOf(s, retained, data)
        && CacheOf(s, retained, data)[s[i]].orderIndex == CountGets(s[..i], retained, data)
    {
      if s != [] {
        var prefix := s[..|s|-1];
        assert NoDuplicates(prefix) by {
          forall a, b | 0 <= a < b < |prefix| ensures prefix[a] != prefix[b] {
            assert prefix[a] == s[a] && prefix[b] == s[b];
          }
        }
        CacheOfOrder(prefix, retained, data);
        CacheOfKeys(prefix, retained, data);
        forall i | 0 <= i < |s| && GetsVisual(s[i], retained, data)
          ensures s[i] in CacheOf(s, retained, data)
          ensures CacheOf(s, retained, data)[s[i]].orderIndex == CountGets(s[..i], retained, data)
        {
          if i < |s| - 1 {
            assert prefix[i] == s[i];
            assert prefix[..i] == s[..i];
            assert s[i] != s[|s|-1];
          } else {
            assert s[..i] == prefix;
          }
        }
      }
    }

    /** Higher on a repeat-free stack means a strictly higher layer. */
    lemma LayersFollowStackOrder(s: seq<MaskType>, i: nat, j: nat,
                                 retained: map<MaskType, ObjectId>, data: MaskDataSO)
      requires NoDuplicates(s) && i < j < |s|
      requires GetsVisual(s[i], retained, data) && GetsVisual(s[j], retained, data)
      ensures s[i] in CacheOf(s, retained, data) && s[j] in CacheOf(s, retained, data)
      ensures CacheOf(s, retained, data)[s[i]].orderIndex < CacheOf(s, retained, data)[s[j]].orderIndex
    {
      CacheOfOrder(s, retained, data);
      CountGetsMonotone(s, i, j, retained, data);
    }

    /** All references are set, so an update can run. */
    predicate RefsPresent()
      reads this
    {
      playerMask != null && maskData.Some? && hasMaskParent
    }

    /** The state `UpdateVisuals` leaves, given the state before it. With a
        missing reference nothing changes. A bare stack clears every visual
        and the cache. Otherwise the visuals are exactly the stack's masks
        that get one, survivors keep their object, new ones are fresh, the
        cache is the stack's layout, and the drawn stack is the stack. */
    ghost predicate Updated(active0: map<MaskType, ObjectId>, cache0: map<MaskType, MaskVisualData>,
                            drawn0: seq<MaskType>, next0: ObjectId)
      reads this, playerMask
    {
      nextVisualId >= next0
      && (!RefsPresent() ==>
            activeMaskVisuals == active0 && maskVisualDataCache == cache0
            && currentVisualStack == drawn0 && nextVisualId == next0)
      && (RefsPresent() && IsBare(playerMask.maskStack) ==>
            activeMaskVisuals == map[] && maskVisualDataCache == map[]
            && currentVisualStack == playerMask.maskStack && nextVisualId == next0)
      && (RefsPresent() && !IsBare(playerMask.maskStack) ==>
            var stack := playerMask.maskStack;
            var retained := Retained(active0, stack);
            currentVisualStack == stack
            && (forall m :: m in activeMaskVisuals <==> m in stack && GetsVisual(m, retained, maskData.value))
            && (forall m :: m in retained ==> activeMaskVisuals[m] == retained[m])
            && (forall m :: m in activeMaskVisuals && m !in active0 ==> next0 <= activeMaskVisuals[m])
            && maskVisualDataCache == CacheOf(stack, retained, maskData.value))
    }

    /** Picks up a sibling `PlayerMask` when none was assigned, then draws. */
    method Start(sibling: PlayerMask?)
      requires Valid()
      modifies this
      ensures Valid()
      ensures playerMask == (if old(playerMask) == null then sibling else old(playerMask))
      ensures Updated(old(activeMaskVisuals), old(maskVisualDataCache), old(currentVisualStack), old(nextVisualId))
    {
      if playerMask == null {
        playerMask := sibling;
      }
      if playerMask != null {
        UpdateVisuals();
      }
    }

    /** Rebuilds the visuals and their cache from the player's mask stack. */
    method UpdateVisuals()
      requires Valid()
      modifies this
      ensures Valid() && playerMask == old(playerMask)
      ensures Updated(old(activeMaskVisuals), old(maskVisualDataCache), old(currentVisualStack), old(nextVisualId))
    {
      if playerMask == null || maskData.None? || !hasMaskParent {
        return;
      }
      var data := maskData.value;
      var newStack := playerMask.GetMaskStack();
      if |newStack| == 0 || (|newStack| == 1 && newStack[0] == Default) {
        ClearAllVisuals();
        currentVisualStack := newStack;
        maskVisualDataCache := map[];
        return;
      }

      ghost var active0 := activeMaskVisuals;
      RemoveStaleVisuals(newStack);
      ghost var retained := Retained(active0, newStack);
      maskVisualDataCache := map[];
      LayoutVisuals(newStack, data, retained);
      currentVisualStack := newStack;
      CacheOfKeys(newStack, retained, data);
      CacheOfPlacement(newStack, retained, data);
    }

    /** The removal pass of `UpdateVisuals`: collects, then drops, the visuals
        (and cached layouts) of masks no longer on the stack, and of the
        default mask. */
    method RemoveStaleVisuals(newStack: seq<MaskType>)
      modifies this`activeMaskVisuals, this`maskVisualDataCache
      ensures activeMaskVisuals == Retained(old(activeMaskVisuals), newStack)
      ensures forall m :: m in maskVisualDataCache ==> m in old(maskVisualDataCache)
    {
      ghost var active0 := activeMaskVisuals;
      var masksToRemove: seq<MaskType> := [];
      var pending := activeMaskVisuals.Keys;
      while pending != {}
        invariant pending <= activeMaskVisuals.Keys
        invariant forall k :: k in masksToRemove <==>
          (k in activeMaskVisuals && k !in pending && (k !in newStack || k == Default))
        decreases pending
      {
        var k :| k in pending;
        if k !in newStack || k == Default {
          masksToRemove := masksToRemove + [k];
        }
        pending := pending - {k};
      }
      for j := 0 to |masksToRemove|
        invariant forall k :: k in activeMaskVisuals <==> k in active0 && k !in masksToRemove[..j]
        invariant forall k :: k in activeMaskVisuals ==> activeMaskVisuals[k] == active0[k]
        invariant forall m :: m in maskVisualDataCache ==> m in old(maskVisualDataCache)
      {
        activeMaskVisuals := activeMaskVisuals - {masksToRemove[j]};
        maskVisualDataCache := maskVisualDataCache - {masksToRemove[j]};
      }
      assert masksToRemove[..|masksToRemove|] == masksToRemove;
    }

    /** The layout pass of `UpdateVisuals`: bottom to top, each non-default
        mask that has or can create a visual takes the next layer's placement. */
    method LayoutVisuals(newStack: seq<MaskType>, data: MaskDataSO, ghost retained: map<MaskType, ObjectId>)
      requires maskData == Some(data) && maskVisualDataCache == map[]
      requires activeMaskVisuals == retained && Default !in retained
      requires forall m :: m in retained ==> retained[m] < nextVisualId
      requires Injective(retained)
      modifies this`activeMaskVisuals, this`maskVisualDataCache, this`nextVisualId
      ensures maskVisualDataCache == CacheOf(newStack, retained, data)
      ensures forall m :: m in activeMaskVisuals <==> m in retained || (m in newStack && GetsVisual(m, retained, data))
      ensures forall m :: m in retained ==> activeMaskVisuals[m] == retained[m]
      ensures forall m :: m in activeMaskVisuals && m !in retained ==> old(nextVisualId) <= activeMaskVisuals[m]
      ensures forall m :: m in activeMaskVisuals ==> activeMaskVisuals[m] < nextVisualId
      ensures Injective(activeMaskVisuals) && old(nextVisualId) <= nextVisualId
    {
      ghost var next0 := nextVisualId;
      var visualLayerIndex: nat := 0;
      for i := 0 to |newStack|
        invariant visualLayerIndex == CountGets(newStack[..i], retained, data)
        invariant maskVisualDataCache == CacheOf(newStack[..i], retained, data)
        invariant ActiveInv(activeMaskVisuals, retained, newStack[..i], data, next0, nextVisualId)
      {
        assert newStack[..i + 1] == newStack[..i] + [newStack[i]];
        var maskType := newStack[i];
        CacheOfStep(newStack, i, retained, data);
        if maskType == Default {
          ActiveStep(activeMaskVisuals, activeMaskVisuals, retained, newStack[..i], maskType, data,
                     next0, nextVisualId, nextVisualId, None);
          continue;
        }
        ghost var before, nextBefore := activeMaskVisuals, nextVisualId;
        var maskVisual := GetOrCreateMaskVisual(maskType);
        ActiveStep(before, activeMaskVisuals, retained, newStack[..i], maskType, data,
                   next0, nextBefore, nextVisualId, maskVisual);
        if maskVisual.Some? {
          var localPosition := Scale(positionOffset, visualLayerIndex as real);
          var scaleFactor := 1.0 + scaleIncrement * visualLayerIndex as real;
          scaleFactor := Min(scaleFactor, maxScale);
          var localScale := Uniform(scaleFactor);
          var visualData := MaskVisualData(localPosition, localScale, visualLayerIndex, maskType);
          PlacementIs(visualLayerIndex, maskType, localPosition, localScale);
          maskVisualDataCache := maskVisualDataCache[maskType := visualData];
          visualLayerIndex := visualLayerIndex + 1;
        }
      }
      assert newStack[..|newStack|] == newStack;
    }

    /** What the layout pass keeps true of the visuals after laying out
        `prefix`: the visuals are the survivors plus the laid-out masks that
        get one, survivors keep their object, new objects are fresh and ids
        stay distinct. */
    static ghost predicate ActiveInv(active: map<MaskType, ObjectId>, retained: map<MaskType, ObjectId>,
                                     prefix: seq<MaskType>, data: MaskDataSO, next0: ObjectId, next: ObjectId)
    {
      (forall m :: m in active <==> m in retained || (m in prefix && GetsVisual(m, retained, data)))
      && (forall m :: m in retained ==> m in active && active[m] == retained[m])
      && (forall m :: m in active && m !in retained ==> next0 <= active[m])
      && (forall m :: m in active ==> active[m] < next)
      && Injective(active) && next0 <= next
    }

    /** One step of the layout pass keeps `ActiveInv`, and the step's mask
        receives a visual exactly when it gets one by `GetsVisual`. */
    static lemma ActiveStep(active: map<MaskType, ObjectId>, active': map<MaskType, ObjectId>,
                            retained: map<MaskType, ObjectId>, prefix: seq<MaskType>, m: MaskType,
                            data: MaskDataSO, next0: ObjectId, next: ObjectId, next': ObjectId,
                            visual: Option<ObjectId>)
      requires ActiveInv(active, retained, prefix, data, next0, next)
      requires m == Default ==> visual.None?
      requires m != Default && m in active ==> visual == Some(active[m])
      requires m != Default && m !in active ==> (visual.Some? <==> GetPrefab(data, m).Some?)
      requires visual.Some? && m !in active ==> active' == active[m := next] && next' == next + 1
      requires !(visual.Some? && m !in active) ==> active' == active && next' == next
      ensures ActiveInv(active', retained, prefix + [m], data, next0, next')
      ensures visual.Some? <==> GetsVisual(m, retained, data)
    {
      if visual.Some? && m !in active {
        assert Injective(active') by {
          forall a, b | a in active' && b in active' && active'[a] == active'[b] ensures a == b {
            if a != m && b != m {
              assert active[a] == active[b];
            }
          }
        }
      }
    }

    /** The cached layout of a mask, or zero offset, unit scale, layer 0 for
        one that has none. */
    function GetMaskVisualData(maskType: MaskType): (r: MaskVisualData)
      reads this
      ensures maskType !in maskVisualDataCache ==> r == MaskVisualData(Zero, One, 0, maskType)
      ensures Valid() ==> r.maskType == maskType
      ensures Valid() && maskType in maskVisualDataCache ==> r == Placement(r.orderIndex, maskType)
      ensures Valid() && maskType == Default ==> r.localPosition == Zero && r.localScale == One
    {
      if maskType in maskVisualDataCache then maskVisualDataCache[maskType]
      else MaskVisualData(Zero, One, 0, maskType)
    }

    /** The visual for a mask: none for the default mask, the existing one if
        there is one, otherwise a new one from the mask's prefab, or none if
        it has no prefab. */
    method GetOrCreateMaskVisual(maskType: MaskType) returns (visual: Option<ObjectId>)
      requires maskData.Some?
      modifies this`activeMaskVisuals, this`nextVisualId
      ensures maskType == Default ==> visual.None?
      ensures maskType != Default && maskType in old(activeMaskVisuals) ==>
        visual == Some(old(activeMaskVisuals)[maskType])
      ensures maskType != Default && maskType !in old(activeMaskVisuals) ==>
        (visual.Some? <==> GetPrefab(maskData.value, maskType).Some?)
      ensures visual.Some? && maskType !in old(activeMaskVisuals) ==>
        visual == Some(old(nextVisualId))
        && activeMaskVisuals == old(activeMaskVisuals)[maskType := old(nextVisualId)]
        && nextVisualId == old(nextVisualId) + 1
      ensures !(visual.Some? && maskType !in old(activeMaskVisuals)) ==>
        activeMaskVisuals == old(activeMaskVisuals) && nextVisualId == old(nextVisualId)
    {
      if maskType == Default {
        return None;
      }
      if maskType in activeMaskVisuals {
        return Some(activeMaskVisuals[maskType]);
      }
      var prefab := GetPrefab(maskData.value, maskType);
      if prefab.None? {
        return None;
      }
      var newVisual := nextVisualId;
      nextVisualId := nextVisualId + 1;
      activeMaskVisuals := activeMaskVisuals[maskType := newVisual];
      return Some(newVisual);
    }

    /** Drops every visual, the cache and the drawn stack. */
    method ClearAllVisuals()
      requires Valid()
      modifies this`activeMaskVisuals, this`maskVisualDataCache, this`currentVisualStack
      ensures Valid()
      ensures activeMaskVisuals == map[] && maskVisualDataCache == map[] && currentVisualStack == []
    {
      activeMaskVisuals := map[];
      maskVisualDataCache := map[];
      currentVisualStack := [];
    }
  }
}

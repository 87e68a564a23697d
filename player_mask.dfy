/** The player's mask stack: an insertion-ordered list of distinct masks whose
    last element is the outermost (current) mask. */
module PlayerMaskModel {
  import opened Common
  import opened Masks

  /** What the stack promises at every observation point after initialisation. */
  ghost predicate StackInvariant(s: seq<MaskType>) {
    |s| >= 1 && NoDuplicates(s)
  }

  /** `initialMasks` with every later duplicate dropped, first-occurrence order
      kept: the stack the initialisation loop builds. */
  function Dedupe(s: seq<MaskType>): (r: seq<MaskType>) {
    if |s| == 0 then []
    else
      var d := Dedupe(s[..|s| - 1]);
      if s[|s| - 1] in d then d else d + [s[|s| - 1]]
  }

  /** The index of the first occurrence of `x` in `s`. */
  function FirstIndex(s: seq<MaskType>, x: MaskType): (r: nat)
    requires x in s
    ensures r < |s| && s[r] == x
    ensures forall j :: 0 <= j < r ==> s[j] != x
  {
    if s[0] == x then 0 else 1 + FirstIndex(s[1..], x)
  }

  /** The first occurrence of `x` in a prefix is its first occurrence in the whole. */
  lemma FirstIndexOfPrefix(s: seq<MaskType>, k: nat, x: MaskType)
    requires k <= |s| && x in s[..k]
    ensures FirstIndex(s, x) == FirstIndex(s[..k], x)
  {
    var i, j := FirstIndex(s, x), FirstIndex(s[..k], x);
    assert s[..k][j] == s[j];
  }

  /** Dedupe keeps exactly the elements of its input. */
  lemma {:induction false} DedupeElements(s: seq<MaskType>)
    ensures forall x :: x in Dedupe(s) <==> x in s
  {
    if |s| > 0 {
      var p := s[..|s| - 1];
      DedupeElements(p);
      assert s == p + [s[|s| - 1]];
    }
  }

  /** Dedupe never yields a duplicate. */
  lemma {:induction false} DedupeNoDuplicates(s: seq<MaskType>)
    ensures NoDuplicates(Dedupe(s))
  {
    if |s| > 0 {
      var p := s[..|s| - 1];
      DedupeNoDuplicates(p);
      if s[|s| - 1] !in Dedupe(p) {
        AppendFreshKeepsNoDuplicates(Dedupe(p), s[|s| - 1]);
      }
    }
  }

  /** Dedupe lists the masks in the order of their first occurrence in the input. */
  lemma {:induction false} DedupeKeepsFirstOccurrenceOrder(s: seq<MaskType>)
    ensures forall x :: x in Dedupe(s) ==> x in s
    ensures forall i, j :: 0 <= i < j < |Dedupe(s)| ==>
      FirstIndex(s, Dedupe(s)[i]) < FirstIndex(s, Dedupe(s)[j])
  {
    DedupeElements(s);
    if |s| > 0 {
      var p := s[..|s| - 1];
      var last := s[|s| - 1];
      var d := Dedupe(p);
      DedupeKeepsFirstOccurrenceOrder(p);
      DedupeElements(p);
      assert p == s[..|s| - 1];
      forall x | x in d
        ensures FirstIndex(s, x) == FirstIndex(p, x) < |p|
      {
        FirstIndexOfPrefix(s, |s| - 1, x);
      }
      if last !in d {
        assert last !in p;
        assert FirstIndex(s, last) == |s| - 1;
        forall i, j | 0 <= i < j < |d| + 1
          ensures FirstIndex(s, (d + [last])[i]) < FirstIndex(s, (d + [last])[j])
        {
          assert (d + [last])[i] == d[i];
          if j < |d| {
            assert (d + [last])[j] == d[j];
          }
        }
      }
    }
  }

  /** The stack right after `InitializeMaskStack`: the deduplicated initial
      masks, or `[Default]` when none are configured. */
  function InitialStack(initialMasks: seq<MaskType>): seq<MaskType> {
    var d := Dedupe(initialMasks);
    if |d| == 0 then [Default] else d
  }

  /** Initialisation always establishes the stack invariant; it falls back to
      `[Default]` exactly when no initial mask is configured, and otherwise
      keeps the deduplicated initial masks. */
  lemma InitialStackIsValid(initialMasks: seq<MaskType>)
    ensures StackInvariant(InitialStack(initialMasks))
    ensures initialMasks == [] ==> InitialStack(initialMasks) == [Default]
    ensures initialMasks != [] ==> InitialStack(initialMasks) == Dedupe(initialMasks)
  {
    DedupeElements(initialMasks);
    DedupeNoDuplicates(initialMasks);
    if initialMasks != [] {
      assert initialMasks[0] in Dedupe(initialMasks);
    }
  }

  /** The stack after `AddMask(m)`: unchanged if `m` is already equipped,
      otherwise `m` becomes the new outermost mask. */
  function Pushed(s: seq<MaskType>, m: MaskType): (r: seq<MaskType>) {
    if m in s then s else s + [m]
  }

  /** The stack after `RemoveOuterMask()`: the last mask goes, unless it is the only one. */
  function Popped(s: seq<MaskType>): (r: seq<MaskType>) {
    if |s| > 1 then s[..|s| - 1] else s
  }

  /** Adding keeps the stack invariant; a fresh mask grows the count by one and
      becomes the last element. */
  lemma PushedKeepsInvariant(s: seq<MaskType>, m: MaskType)
    requires StackInvariant(s)
    ensures StackInvariant(Pushed(s, m))
    ensures m !in s ==>
      (|Pushed(s, m)| == |s| + 1 && Pushed(s, m)[|s|] == m && Pushed(s, m)[..|s|] == s)
    ensures m in s ==> Pushed(s, m) == s
  {
    if m !in s {
      AppendFreshKeepsNoDuplicates(s, m);
    }
  }

  /** Removing keeps the stack invariant and only shortens the stack by its last element. */
  lemma PoppedKeepsInvariant(s: seq<MaskType>)
    requires StackInvariant(s)
    ensures StackInvariant(Popped(s))
    ensures |s| > 1 ==> |Popped(s)| == |s| - 1 && Popped(s) == s[..|s| - 1]
    ensures |s| <= 1 ==> Popped(s) == s
  {
  }

  /** Adding an absent mask and then removing the outer mask restores the stack. */
  lemma AddThenRemoveRestores(s: seq<MaskType>, m: MaskType)
    requires StackInvariant(s) && m !in s
    ensures Popped(Pushed(s, m)) == s
  {
    assert (s + [m])[..|s|] == s;
  }

  class PlayerMask {
    var maskStack: seq<MaskType>
    /** The inspector's "Initial Masks" list. */
    const initialMasks: seq<MaskType>
    var currentTopMask: MaskType
    var maskCount: int
    /** How many times `OnMaskStackUpdated` has been invoked. */
    var stackUpdatedEvents: nat

    /** The object invariant after `Awake`: a valid stack and both mirror fields up to date. */
    ghost predicate Valid()
      reads this
    {
      StackInvariant(maskStack)
      && currentTopMask == maskStack[|maskStack| - 1]
      && maskCount == |maskStack|
    }

    /** The component before `Awake`: empty stack, `currentTopMask` Default, count 0. */
    constructor (initial: seq<MaskType>)
      ensures initialMasks == initial
      ensures maskStack == [] && currentTopMask == Default && maskCount == 0
      ensures stackUpdatedEvents == 0
    {
      initialMasks := initial;
      maskStack := [];
      currentTopMask := Default;
      maskCount := 0;
      stackUpdatedEvents := 0;
    }

    method Awake()
      modifies this
      ensures Valid() && maskStack == InitialStack(initialMasks)
      ensures stackUpdatedEvents == old(stackUpdatedEvents) + 1
    {
      InitializeMaskStack();
    }

    method InitializeMaskStack()
      modifies this
      ensures Valid() && maskStack == InitialStack(initialMasks)
      ensures stackUpdatedEvents == old(stackUpdatedEvents) + 1
    {
      maskStack := [];
      for i := 0 to |initialMasks|
        invariant maskStack == Dedupe(initialMasks[..i])
        invariant stackUpdatedEvents == old(stackUpdatedEvents)
      {
        var mask := initialMasks[i];
        assert initialMasks[..i + 1][..i] == initialMasks[..i];
        if mask !in maskStack {
          maskStack := maskStack + [mask];
        }
      }
      assert initialMasks[..|initialMasks|] == initialMasks;
      if |maskStack| == 0 {
        maskStack := maskStack + [Default];
      }
      InitialStackIsValid(initialMasks);
      UpdateDebugInfo();
      stackUpdatedEvents := stackUpdatedEvents + 1;
    }

    method AddMask(maskToAdd: MaskType) returns (added: bool)
      requires Valid()
      modifies this
      ensures Valid()
      ensures added <==> maskToAdd !in old(maskStack)
      ensures maskStack == Pushed(old(maskStack), maskToAdd)
      ensures stackUpdatedEvents == old(stackUpdatedEvents) + (if added then 1 else 0)
    {
      if maskToAdd in maskStack {
        return false;
      }
      PushedKeepsInvariant(maskStack, maskToAdd);
      maskStack := maskStack + [maskToAdd];
      UpdateDebugInfo();
      stackUpdatedEvents := stackUpdatedEvents + 1;
      return true;
    }

    method RemoveOuterMask() returns (removed: bool)
      requires Valid()
      modifies this
      ensures Valid()
      ensures removed <==> |old(maskStack)| > 1
      ensures maskStack == Popped(old(maskStack))
      ensures stackUpdatedEvents == old(stackUpdatedEvents) + (if removed then 1 else 0)
    {
      if !CanRemoveMask() {
        return false;
      }
      PoppedKeepsInvariant(maskStack);
      maskStack := maskStack[..|maskStack| - 1];
      UpdateDebugInfo();
      stackUpdatedEvents := stackUpdatedEvents + 1;
      return true;
    }

    /** True iff more than one mask is equipped, so one may be taken off:
        exactly when `RemoveOuterMask` would change the stack, and then by
        one mask. */
    function CanRemoveMask(): (r: bool)
      reads this
      ensures r <==> Popped(maskStack) != maskStack
      ensures r ==> |Popped(maskStack)| == |maskStack| - 1
    {
      |maskStack| > 1
    }

    /** Rewrites the two mirror fields from the stack. */
    method UpdateDebugInfo()
      modifies this`currentTopMask, this`maskCount
      ensures currentTopMask == if |maskStack| > 0 then maskStack[|maskStack| - 1] else Default
      ensures maskCount == |maskStack|
    {
      if |maskStack| > 0 {
        currentTopMask := maskStack[|maskStack| - 1];
      } else {
        currentTopMask := Default;
      }
      maskCount := |maskStack|;
    }

    /** The outermost mask, which is the last element of a valid stack. */
    function GetCurrentMask(): (r: MaskType)
      reads this
      ensures Valid() ==> r == maskStack[|maskStack| - 1]
    {
      currentTopMask
    }

    function HasMask(mask: MaskType): (r: bool)
      reads this
      ensures r <==> exists i :: 0 <= i < |maskStack| && maskStack[i] == mask
    {
      mask in maskStack
    }

    function GetMaskCount(): (r: int)
      reads this
      ensures r == |maskStack|
      ensures Valid() ==> r >= 1
    {
      |maskStack|
    }

    /** A copy of the stack; a Dafny sequence is a value, so the caller's copy
        shares nothing with the component. */
    method GetMaskStack() returns (copy: seq<MaskType>)
      ensures copy == maskStack
    {
      copy := maskStack;
    }

    /** The inspector's "Debug Remove Selected": removes the outer mask only if
        it is the selected one and another mask remains. */
    method DebugRemoveSelectedMask(debugRemoveMask: MaskType)
      requires Valid()
      modifies this
      ensures Valid()
      ensures var s := old(maskStack);
        maskStack == if |s| > 1 && s[|s| - 1] == debugRemoveMask then s[..|s| - 1] else s
      ensures var s := old(maskStack);
        stackUpdatedEvents == old(stackUpdatedEvents) + (if |s| > 1 && s[|s| - 1] == debugRemoveMask then 1 else 0)
    {
      if |maskStack| > 1 && maskStack[|maskStack| - 1] == debugRemoveMask {
        var _ := RemoveOuterMask();
      }
    }

    /** The inspector's "Debug Add Selected". */
    method DebugAddSelectedMask(debugAddMask: MaskType)
      requires Valid()
      modifies this
      ensures Valid()
      ensures maskStack == Pushed(old(maskStack), debugAddMask)
      ensures stackUpdatedEvents == old(stackUpdatedEvents) + (if debugAddMask !in old(maskStack) then 1 else 0)
    {
      var _ := AddMask(debugAddMask);
    }
  }
}

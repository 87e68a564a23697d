/** The mask data asset: per-mask definitions (display name, visual prefab,
    droppable item prefab) and the door compatibility table. Every query is a
    first-match linear search; nothing is ever assigned. */
module MaskData {
  import opened Common
  import opened Masks

  datatype MaskDefinition = MaskDefinition(
    maskType: MaskType,
    displayName: string,
    prefab: Option<ObjectId>,
    maskItem: Option<ObjectId>)

  /** One row of the compatibility table: the door mask `mask` lets through
      every mask listed in `matches`. */
  datatype MaskMatches = MaskMatches(mask: MaskType, matches: seq<MaskType>)

  datatype MaskDataSO = MaskDataSO(
    maskDefinitions: seq<MaskDefinition>,
    matches: seq<MaskMatches>)

  /** Entry `i` is the first definition of mask type `m`. */
  ghost predicate IsFirstDefinition(defs: seq<MaskDefinition>, i: int, m: MaskType) {
    0 <= i < |defs| && defs[i].maskType == m
    && forall j :: 0 <= j < i ==> defs[j].maskType != m
  }

  /** No definition has mask type `m`. */
  ghost predicate NoDefinition(defs: seq<MaskDefinition>, m: MaskType) {
    forall j :: 0 <= j < |defs| ==> defs[j].maskType != m
  }

  /** The position of the first definition of `m`, as the foreach loops find it. */
  function FirstDefinition(defs: seq<MaskDefinition>, m: MaskType): (r: Option<nat>)
    ensures r.Some? ==> IsFirstDefinition(defs, r.value, m)
    ensures r.None? ==> NoDefinition(defs, m)
  {
    if |defs| == 0 then None
    else if defs[0].maskType == m then Some(0)
    else match FirstDefinition(defs[1..], m)
      case None => None
      case Some(k) => Some(k + 1)
  }

  /** There is at most one first definition. */
  lemma FirstDefinitionUnique(defs: seq<MaskDefinition>, i: int, k: int, m: MaskType)
    requires IsFirstDefinition(defs, i, m) && IsFirstDefinition(defs, k, m)
    ensures i == k
  {
  }

  /** The visual prefab of the mask; the Wolf mask never has one. */
  function GetPrefab(data: MaskDataSO, maskType: MaskType): (r: Option<ObjectId>)
    ensures maskType == Wolf ==> r.None?
    ensures maskType != Wolf ==>
      (forall i :: IsFirstDefinition(data.maskDefinitions, i, maskType) ==> r == data.maskDefinitions[i].prefab)
    ensures NoDefinition(data.maskDefinitions, maskType) ==> r.None?
  {
    if maskType == Wolf then None
    else match FirstDefinition(data.maskDefinitions, maskType)
      case Some(i) => data.maskDefinitions[i].prefab
      case None => None
  }

  /** The droppable item prefab of the mask; same shape as `GetPrefab`. */
  function GetMaskItem(data: MaskDataSO, maskType: MaskType): (r: Option<ObjectId>)
    ensures maskType == Wolf ==> r.None?
    ensures maskType != Wolf ==>
      (forall i :: IsFirstDefinition(data.maskDefinitions, i, maskType) ==> r == data.maskDefinitions[i].maskItem)
    ensures NoDefinition(data.maskDefinitions, maskType) ==> r.None?
  {
    if maskType == Wolf then None
    else match FirstDefinition(data.maskDefinitions, maskType)
      case Some(i) => data.maskDefinitions[i].maskItem
      case None => None
  }

  /** The first definition's display name, else the enum's own name
      (there is no Wolf special case here). */
  function GetName(data: MaskDataSO, maskType: MaskType): (r: string)
    ensures forall i :: IsFirstDefinition(data.maskDefinitions, i, maskType) ==>
      r == data.maskDefinitions[i].displayName
    ensures NoDefinition(data.maskDefinitions, maskType) ==> r == TypeName(maskType)
  {
    match FirstDefinition(data.maskDefinitions, maskType)
    case Some(i) => data.maskDefinitions[i].displayName
    case None => TypeName(maskType)
  }

  /** A mask gets a visual iff it is not Wolf and its first definition has a prefab. */
  function ShouldHaveVisual(data: MaskDataSO, maskType: MaskType): (r: bool)
    ensures r <==> (maskType != Wolf &&
                    exists i :: IsFirstDefinition(data.maskDefinitions, i, maskType) && data.maskDefinitions[i].prefab.Some?)
  {
    maskType != Wolf && GetPrefab(data, maskType).Some?
  }

  /** The table row `row` is keyed by `current` and lists `candidate`. */
  predicate RowAdmits(row: MaskMatches, current: MaskType, candidate: MaskType) {
    row.mask == current && candidate in row.matches
  }

  /** Walks the table looking for a row keyed by `current` that lists `candidate`. */
  function MatchesIn(rows: seq<MaskMatches>, current: MaskType, candidate: MaskType): (r: bool)
    ensures r <==> (exists i :: 0 <= i < |rows| && RowAdmits(rows[i], current, candidate))
  {
    if |rows| == 0 then false
    else if rows[0].mask == current && candidate in rows[0].matches then true
    else
      var rest := MatchesIn(rows[1..], current, candidate);
      assert forall i :: 1 <= i < |rows| ==> rows[i] == rows[1..][i - 1];
      rest
  }

  /** `MaskMatch(current, candidate)`: does the table let `candidate` through a
      door keyed by `current`? */
  function MaskMatch(data: MaskDataSO, current: MaskType, candidate: MaskType): (r: bool)
    ensures r <==> (exists i :: 0 <= i < |data.matches| && data.matches[i].mask == current
                              && candidate in data.matches[i].matches)
  {
    var r := MatchesIn(data.matches, current, candidate);
    assert r ==> exists i :: 0 <= i < |data.matches| && RowAdmits(data.matches[i], current, candidate);
    r
  }

  /** Rows with the same key are OR-combined: splitting the table anywhere
      splits the answer into a disjunction. */
  lemma MatchesInConcat(a: seq<MaskMatches>, b: seq<MaskMatches>, current: MaskType, candidate: MaskType)
    ensures MatchesIn(a + b, current, candidate)
      == (MatchesIn(a, current, candidate) || MatchesIn(b, current, candidate))
  {
    var ab := a + b;
    if MatchesIn(b, current, candidate) {
      var i :| 0 <= i < |b| && RowAdmits(b[i], current, candidate);
      assert ab[|a| + i] == b[i];
    }
    if MatchesIn(a, current, candidate) {
      var i :| 0 <= i < |a| && RowAdmits(a[i], current, candidate);
      assert ab[i] == a[i];
    }
    if MatchesIn(ab, current, candidate) {
      var i :| 0 <= i < |ab| && RowAdmits(ab[i], current, candidate);
      if i < |a| {
        assert ab[i] == a[i];
      } else {
        assert ab[i] == b[i - |a|];
      }
    }
  }

  /** Without a row keyed by `current` nothing matches. */
  lemma NoRowNoMatch(data: MaskDataSO, current: MaskType, candidate: MaskType)
    requires forall i :: 0 <= i < |data.matches| ==> data.matches[i].mask != current
    ensures !MaskMatch(data, current, candidate)
  {
  }
}

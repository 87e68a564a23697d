/** Types shared by every part of the model: optional values (a Unity
    reference that may be null) and abstract identities of engine objects. */
module Common {

  /** A value that may be absent; `None` stands for a null reference. */
  datatype Option<+T> = None | Some(value: T)

  /** The identity of a GameObject, a prefab asset or a collider. Only
      identity matters to the game logic, so it is a plain number. */
  type ObjectId = nat

  /** No element occurs twice. */
  predicate NoDuplicates<T(==)>(s: seq<T>) {
    forall i, j :: 0 <= i < j < |s| ==> s[i] != s[j]
  }

  /** Appending an element that is absent keeps a sequence free of duplicates. */
  lemma AppendFreshKeepsNoDuplicates<T>(s: seq<T>, x: T)
    requires NoDuplicates(s) && x !in s
    ensures NoDuplicates(s + [x])
  {
    forall i, j | 0 <= i < j < |s| + 1
      ensures (s + [x])[i] != (s + [x])[j]
    {
      if j == |s| {
        assert (s + [x])[i] == s[i];
      }
    }
  }
}

/** The logical effect of ArrayD's positional insert and remove, stated on
    plain sequences. The class in arrayd.dfy is specified against these
    functions; the lemmas below relate them to each other. */
module Splice {

  /** `s` with `v` placed at position `j`: the elements before `j` stay put,
      `v` sits at `j`, and every later element moves one place to the right. */
  function Inserted<T>(s: seq<T>, j: nat, v: T): (r: seq<T>)
    requires j <= |s|
    ensures |r| == |s| + 1
    ensures r[j] == v
    ensures forall k :: 0 <= k < j ==> r[k] == s[k]
    ensures forall k :: j < k < |r| ==> r[k] == s[k - 1]
  {
    s[..j] + [v] + s[j..]
  }

  /** `s` without its element at position `j`: the elements before `j` stay
      put and every later element moves one place to the left. */
  function Removed<T>(s: seq<T>, j: nat): (r: seq<T>)
    requires j < |s|
    ensures |r| == |s| - 1
    ensures forall k :: 0 <= k < j ==> r[k] == s[k]
    ensures forall k :: j <= k < |r| ==> r[k] == s[k + 1]
  {
    s[..j] + s[j + 1..]
  }

  /** Removing at the position just inserted at gives back the original. */
  lemma RemoveAfterInsert<T>(s: seq<T>, j: nat, v: T)
    requires j <= |s|
    ensures Removed(Inserted(s, j, v), j) == s
  {
  }

  /** Putting a removed element back where it was gives back the original. */
  lemma InsertAfterRemove<T>(s: seq<T>, j: nat)
    requires j < |s|
    ensures Inserted(Removed(s, j), j, s[j]) == s
  {
  }

  /** Insertion adds exactly one copy of `v` and loses nothing. */
  lemma InsertedElements<T>(s: seq<T>, j: nat, v: T)
    requires j <= |s|
    ensures multiset(Inserted(s, j, v)) == multiset(s) + multiset{v}
  {
    assert s == s[..j] + s[j..];
  }

  /** Removal drops exactly one copy of the element at `j` and nothing else. */
  lemma RemovedElements<T>(s: seq<T>, j: nat)
    requires j < |s|
    ensures multiset(Removed(s, j)) == multiset(s) - multiset{s[j]}
  {
    assert s == s[..j] + [s[j]] + s[j + 1..];
  }
}

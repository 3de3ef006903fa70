/** Callers of ArrayD that use nothing but its contracts: the insert/remove
    round trip on a live array, the independence of a copy, and two worked
    examples of the bounds checks. */
module DynArrayClient {
  import opened Splice
  import opened DynArray

  /** `insert(v, j)` then `remove(j)` leaves any array as it was: both
      succeed when `0 <= j <= size`, and both fail otherwise. */
  method InsertThenRemove<T(0)>(a: ArrayD<T>, v: T, j: int) returns (inserted: Outcome, removed: Outcome)
    requires a.Valid()
    modifies a.Repr
    ensures a.Valid() && fresh(a.Repr - old(a.Repr))
    ensures inserted.Pass? <==> 0 <= j <= old(|a.Contents|)
    ensures removed.Pass? <==> inserted.Pass?
    ensures a.Contents == old(a.Contents)
  {
    inserted := a.Insert(v, j);
    removed := a.Remove(j);
    if inserted.Pass? {
      RemoveAfterInsert(old(a.Contents), j, v);
    }
  }

  /** Writing element 0 of a copy leaves element 0 of the original as it
      was: the copy shares no storage with its source. */
  method CopyIsDeep<T(0)>(a: ArrayD<T>, x: T) returns (original: Result<T>, copied: Result<T>)
    requires a.Valid() && |a.Contents| > 0
    // no modifies clause: `a` is the same before and after the call, so this
    // is the first element `a` had all along
    ensures original == Success(a.Contents[0])
    ensures copied == Success(x)
  {
    var b := new ArrayD<T>.Copy(a);
    var written := b.Set(0, x);
    original := a.Get(0);
    copied := b.Get(0);
  }

  /** From `[1.0, 2.0, 3.0]`, `insert(9.0, 1)` gives `[1.0, 9.0, 2.0, 3.0]`,
      `remove(0)` gives `[9.0, 2.0, 3.0]`, and index 3 is out of range. */
  method InsertRemoveExample() returns (n: int, first: Result<real>, past: Result<real>)
    ensures n == 3
    ensures first == Success(9.0)
    ensures past == Failure(OutOfRange)
  {
    var made := ArrayD<real>.Sized(3);
    var a := made.value;
    var s0 := a.Set(0, 1.0);
    var s1 := a.Set(1, 2.0);
    var s2 := a.Set(2, 3.0);
    assert a.Contents == [1.0, 2.0, 3.0];
    var ins := a.Insert(9.0, 1);
    assert a.Contents == [1.0, 9.0, 2.0, 3.0];
    var rem := a.Remove(0);
    assert a.Contents == [9.0, 2.0, 3.0];
    n := a.Ssize();
    first := a.Get(0);
    past := a.Get(3);
  }

  /** `resize(0)` on a five-element array leaves it empty, so that index 0
      is then out of range; `resize(-1)` is rejected. */
  method ResizeExample() returns (n: int, rejected: Outcome, past: Result<real>)
    ensures n == 0
    ensures rejected == Fail(InvalidArgument)
    ensures past == Failure(OutOfRange)
  {
    var made := ArrayD<real>.Sized(5);
    var a := made.value;
    var shrunk := a.Resize(0);
    rejected := a.Resize(-1);
    n := a.Ssize();
    past := a.Get(0);
  }
}

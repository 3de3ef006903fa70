/** ArrayD: a growable array that owns a buffer of `capacity` slots of which
    the first `size` hold its elements. Element values are only stored and
    moved, so the element type is a parameter. */
module DynArray {
  import opened Splice

  /** The two failure signals: the shared `out_of_range` constant, raised on
      a bad index, and the rejection of a negative size. */
  datatype Error = OutOfRange | InvalidArgument

  /** What an operation that yields a value returns instead of throwing. */
  datatype Result<T> = Success(value: T) | Failure(error: Error)

  /** What an operation that yields nothing returns instead of throwing. */
  datatype Outcome = Pass | Fail(error: Error)

  /** Copies the first `n` slots of `src` into `dst`, leaving the rest of
      `dst` as it was: the copy step of a reallocation. */
  method CopyPrefix<T>(src: array<T>, dst: array<T>, n: int)
    requires 0 <= n <= src.Length && n <= dst.Length
    requires src != dst
    modifies dst
    ensures forall k :: 0 <= k < n ==> dst[k] == src[k]
    ensures forall k :: n <= k < dst.Length ==> dst[k] == old(dst[k])
  {
    var i := 0;
    while i < n
      invariant 0 <= i <= n
      invariant forall k :: 0 <= k < i ==> dst[k] == src[k]
      invariant forall k :: i <= k < dst.Length ==> dst[k] == old(dst[k])
    {
      dst[i] := src[i];
      i := i + 1;
    }
  }

  /** Moves slots `[j, n)` of `a` one place to the right, so that slot `j`
      is free to take a new element; slot `n` must exist. */
  method ShiftRight<T>(a: array<T>, j: int, n: int)
    requires 0 <= j <= n < a.Length
    modifies a
    ensures forall k :: 0 <= k <= j ==> a[k] == old(a[k])
    ensures forall k :: j < k <= n ==> a[k] == old(a[k - 1])
    ensures forall k :: n < k < a.Length ==> a[k] == old(a[k])
  {
    var i := n;
    while i > j
      invariant j <= i <= n
      invariant forall k :: 0 <= k <= i ==> a[k] == old(a[k])
      invariant forall k :: i < k <= n ==> a[k] == old(a[k - 1])
      invariant forall k :: n < k < a.Length ==> a[k] == old(a[k])
    {
      a[i] := a[i - 1];
      i := i - 1;
    }
  }

  /** Moves slots `(j, n)` of `a` one place to the left, overwriting slot
      `j`; slot `n - 1` keeps its old value. */
  method ShiftLeft<T>(a: array<T>, j: int, n: int)
    requires 0 <= j < n <= a.Length
    modifies a
    ensures forall k :: 0 <= k < j ==> a[k] == old(a[k])
    ensures forall k :: j <= k < n - 1 ==> a[k] == old(a[k + 1])
    ensures forall k :: n - 1 <= k < a.Length ==> a[k] == old(a[k])
  {
    var i := j;
    while i < n - 1
      invariant j <= i <= n - 1
      invariant forall k :: 0 <= k < j ==> a[k] == old(a[k])
      invariant forall k :: j <= k < i ==> a[k] == old(a[k + 1])
      invariant forall k :: i <= k < a.Length ==> a[k] == old(a[k])
    {
      a[i] := a[i + 1];
      i := i + 1;
    }
  }

  class ArrayD<T(0)> {
    // public view: the elements, in order, and the objects the array owns
    ghost var Contents: seq<T>
    ghost var Repr: set<object>

    // the three fields of the original
    var capacity: int
    var size: int
    var data: array?<T>

    /** The object invariant: `0 <= size <= capacity`, a missing buffer only
        when there are no slots, otherwise a buffer of exactly `capacity`
        slots, owned by this array, whose first `size` slots are the
        elements. */
    ghost predicate Valid()
      reads this, Repr
      ensures Valid() ==> this in Repr
    {
      this in Repr &&
      0 <= size <= capacity &&
      (data == null ==> capacity == 0 && Contents == []) &&
      (data != null ==> data in Repr && data.Length == capacity && Contents == data[..size])
    }

    /** `ArrayD()`: no buffer, no slots, no elements. */
    constructor ()
      ensures Valid() && fresh(Repr)
      ensures Contents == []
      ensures size == 0 && capacity == 0 && data == null
    {
      capacity, size, data := 0, 0, null;
      Contents, Repr := [], {this};
    }

    /** The allocation behind `ArrayD(n)` once `n` is known not to be
        negative: `n` elements of unspecified value. */
    constructor Allocate(n: nat)
      ensures Valid() && fresh(Repr)
      ensures |Contents| == n && capacity >= n
    {
      var buffer := new T[n];
      capacity, size, data := n, n, buffer;
      Contents, Repr := buffer[..], {this, buffer};
    }

    /** `ArrayD(n)`: rejects a negative `n`; otherwise a fresh array whose
        `ssize()` is `n`. */
    static method Sized(n: int) returns (r: Result<ArrayD<T>>)
      ensures r.Failure? <==> n < 0
      ensures r.Failure? ==> r.error == InvalidArgument
      ensures r.Success? ==> r.value.Valid() && fresh(r.value.Repr)
      ensures r.Success? ==> |r.value.Contents| == n
    {
      if n < 0 {
        return Failure(InvalidArgument);
      }
      var a := new ArrayD<T>.Allocate(n);
      r := Success(a);
    }

    /** `ArrayD(const ArrayD&)`: the same elements in a buffer of its own,
        so that later changes to either array leave the other alone. */
    constructor Copy(arr: ArrayD<T>)
      requires arr.Valid()
      ensures Valid() && fresh(Repr)
      ensures Contents == arr.Contents
      ensures data == null || data != arr.data
    {
      capacity, size, Contents := arr.capacity, arr.size, arr.Contents;
      if arr.data == null {
        data, Repr := null, {this};
      } else {
        var copy := new T[arr.capacity];
        CopyPrefix(arr.data, copy, arr.size);
        assert copy[..arr.size] == arr.data[..arr.size];
        data, Repr := copy, {this, copy};
      }
    }

    /** `operator=`: afterwards this array holds what `rhs` held, in a
        buffer of its own; `rhs` is not changed. Assigning an array to
        itself changes nothing. Like `operator=`, it hands back the target,
        so that assignments can be chained. */
    method Assign(rhs: ArrayD<T>) returns (target: ArrayD<T>)
      requires Valid() && rhs.Valid()
      modifies this
      ensures target == this
      ensures Valid() && fresh(Repr - old(Repr))
      ensures Contents == old(rhs.Contents)
      ensures rhs == this ==> unchanged(this)
      ensures rhs != this ==> unchanged(rhs) && fresh(Repr - {this})
    {
      target := this;
      if rhs == this {
        return;
      }
      capacity, size, Contents := rhs.capacity, rhs.size, rhs.Contents;
      if rhs.data == null {
        data, Repr := null, {this};
      } else {
        var copy := new T[rhs.capacity];
        CopyPrefix(rhs.data, copy, rhs.size);
        assert copy[..rhs.size] == rhs.data[..rhs.size];
        data, Repr := copy, {this, copy};
      }
    }

    /** `ssize()`: the number of elements; total and free of effects. */
    function Ssize(): (n: int)
      reads this, Repr
      requires Valid()
      ensures n == |Contents|
    {
      size
    }

    /** `operator[](i) const`, and reading through the reference the
        mutable `operator[](i)` returns: element `i` when `0 <= i < size`,
        `out_of_range` otherwise. */
    method Get(i: int) returns (r: Result<T>)
      requires Valid()
      ensures r.Success? <==> 0 <= i < |Contents|
      ensures r.Success? ==> r.value == Contents[i]
      ensures r.Failure? ==> r.error == OutOfRange
    {
      if 0 <= i < size {
        r := Success(data[i]);
      } else {
        r := Failure(OutOfRange);
      }
    }

    /** Writing `v` through the reference the mutable `operator[](i)`
        returns: element `i` becomes `v` when `0 <= i < size`; otherwise
        `out_of_range` and nothing changes. */
    method Set(i: int, v: T) returns (st: Outcome)
      requires Valid()
      modifies Repr
      ensures Valid() && Repr == old(Repr)
      ensures st.Pass? <==> 0 <= i < old(|Contents|)
      ensures st.Fail? ==> st.error == OutOfRange
      ensures Contents == if st.Pass? then old(Contents)[i := v] else old(Contents)
      ensures size == old(size) && capacity == old(capacity) && data == old(data)
      ensures st.Fail? ==> unchanged(this) && (data != null ==> unchanged(data))
    {
      if 0 <= i < size {
        data[i] := v;
        Contents := Contents[i := v];
        st := Pass;
      } else {
        st := Fail(OutOfRange);
      }
    }

    /** Replaces the buffer by a fresh one of `newCapacity` slots holding
        the same elements. */
    method Reallocate(newCapacity: int)
      requires Valid() && size <= newCapacity
      modifies this
      ensures Valid() && fresh(Repr - {this})
      ensures Contents == old(Contents) && size == old(size)
      ensures capacity == newCapacity && data != null
    {
      var buffer := new T[newCapacity];
      if data != null {
        CopyPrefix(data, buffer, size);
      }
      assert buffer[..size] == Contents;
      capacity, data := newCapacity, buffer;
      Repr := {this, buffer};
    }

    /** `resize(n)`: rejects a negative `n` and changes nothing; otherwise
        `ssize()` becomes `n`, the first `min(old size, n)` elements keep
        their values and order, and any further elements have unspecified
        values. */
    method Resize(n: int) returns (st: Outcome)
      requires Valid()
      modifies Repr
      ensures Valid() && fresh(Repr - old(Repr))
      ensures st.Fail? <==> n < 0
      ensures st.Fail? ==> st.error == InvalidArgument
      ensures st.Fail? ==> Contents == old(Contents) && size == old(size) && capacity == old(capacity)
      ensures st.Fail? ==> unchanged(this) && (data != null ==> unchanged(data))
      ensures st.Pass? ==> |Contents| == n && n <= capacity
      ensures forall k :: 0 <= k < n && k < old(|Contents|) ==> Contents[k] == old(Contents)[k]
    {
      if n < 0 {
        return Fail(InvalidArgument);
      }
      if capacity < n {
        Reallocate(n);
      }
      ghost var before := Contents;
      size := n;
      Contents := if data == null then [] else data[..n];
      assert forall k :: 0 <= k < n && k < |before| ==> Contents[k] == before[k];
      st := Pass;
    }

    /** `insert(v, j)`: with `0 <= j <= size`, `v` goes in at position `j`
        and the later elements move up one, the buffer growing when it is
        full; otherwise `out_of_range` and nothing changes. */
    method Insert(v: T, j: int) returns (st: Outcome)
      requires Valid()
      modifies Repr
      ensures Valid() && fresh(Repr - old(Repr))
      ensures st.Pass? <==> 0 <= j <= old(|Contents|)
      ensures st.Fail? ==> st.error == OutOfRange
      ensures st.Fail? ==> Contents == old(Contents) && size == old(size) && capacity == old(capacity)
      ensures st.Fail? ==> unchanged(this) && (data != null ==> unchanged(data))
      ensures st.Pass? ==> Contents == Inserted(old(Contents), j, v) && capacity >= old(capacity)
    {
      if j < 0 || j > size {
        return Fail(OutOfRange);
      }
      if size == capacity {
        Reallocate(if capacity == 0 then 1 else 2 * capacity);
      }
      ghost var before := Contents;
      ShiftRight(data, j, size);
      data[j] := v;
      size := size + 1;
      Contents := Inserted(before, j, v);
      assert Contents == data[..size];
      st := Pass;
    }

    /** `remove(j)`: with `0 <= j < size`, the element at `j` goes and the
        later elements move down one; otherwise `out_of_range` and nothing
        changes. */
    method Remove(j: int) returns (st: Outcome)
      requires Valid()
      modifies Repr
      ensures Valid() && fresh(Repr - old(Repr))
      ensures st.Pass? <==> 0 <= j < old(|Contents|)
      ensures st.Fail? ==> st.error == OutOfRange
      ensures st.Fail? ==> Contents == old(Contents) && size == old(size) && capacity == old(capacity)
      ensures st.Fail? ==> unchanged(this) && (data != null ==> unchanged(data))
      ensures st.Pass? ==> Contents == Removed(old(Contents), j) && capacity <= old(capacity)
    {
      if j < 0 || j >= size {
        return Fail(OutOfRange);
      }
      ghost var before := Contents;
      ShiftLeft(data, j, size);
      size := size - 1;
      Contents := Removed(before, j);
      assert Contents == data[..size];
      st := Pass;
    }
  }
}

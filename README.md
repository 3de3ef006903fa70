# ArrayD in Dafny

A model of `ArrayD`, the hand-rolled growable array of `double` in
`shestakov_n_a/prj.lab/arrayd/include/arrayd/arrayd.hpp`. The array owns a
buffer `data_` of `capacity_` slots, of which the first `size_` hold its
elements. It offers bounds-checked indexing that signals the shared
`out_of_range` error, `ssize`, `resize`, positional `insert` and `remove`, and
deep copy construction and assignment.

The model follows the header's declarations; the method bodies are not
available. The contracts therefore follow the declared interface and the usual
meaning of each name for a `std::vector`-like container. Details the header
leaves open, such as the growth factor or whether `remove` shrinks the buffer,
are not fixed by any contract.

The project has three files:

- `splice.dfy`, module `Splice`: what insert and remove do to the sequence of
  elements (`Inserted`, `Removed`), and lemmas relating the two: each
  undoes the other, and each adds or drops exactly one element.
- `arrayd.dfy`, module `DynArray`: the class `ArrayD<T>`, with the three
  fields of the original (`capacity`, `size`, a nullable `data` array) and the
  ghost fields `Contents` (the elements, in order) and `Repr` (the objects the
  array owns). `Valid()` is the object invariant: `0 <= size <= capacity`, no
  buffer only when there are no slots, otherwise a buffer of exactly
  `capacity` slots whose first `size` slots are `Contents`. Every method keeps
  it. The element shifts and the copying done on reallocation are `while`
  loops over the buffer (`ShiftRight`, `ShiftLeft`, `CopyPrefix`).
- `client.dfy`, module `DynArrayClient`: callers that rely only on the
  contracts. They show the insert/remove round trip on a live array, the
  independence of a copy from its source, and two worked examples of the
  bounds checks.

The C++ exceptions become return values. `Error` has two cases:
`OutOfRange`, standing for the `out_of_range` constant of line 7, and
`InvalidArgument`, for a negative size. Operations that can fail return `Result<T>`
when they produce a value and `Outcome` when they do not. Every failing call is proved to leave
the whole state as it was: the fields, the buffer and every slot in it.

The header declares only `out_of_range`. The model rejects a negative size
and gives that case its own kind, `InvalidArgument`, so that a bad size can be
told apart from a bad index.

Elements are only stored and moved, never computed with. So the element type is
a type parameter `T`, and the worked examples use `real`. Slots whose values the
header does not fix (a fresh `ArrayD(n)`, the new tail after a growing
`resize`) hold arbitrary values, and no contract says what they are.

## Model

| member | source | states |
|---|---|---|
| `Splice.Inserted` | shestakov_n_a/prj.lab/arrayd/include/arrayd/arrayd.hpp:26 | inserting `v` at `j` keeps the elements before `j`, puts `v` at `j`, moves each later element up one place, and grows the length by one |
| `Splice.Removed` | shestakov_n_a/prj.lab/arrayd/include/arrayd/arrayd.hpp:25 | removing at `j` keeps the elements before `j`, moves each later element down one place, and shrinks the length by one |
| `Splice.RemoveAfterInsert` | shestakov_n_a/prj.lab/arrayd/include/arrayd/arrayd.hpp:25-26 | `remove(j)` after `insert(v, j)` restores the original elements, for every `0 <= j <= size` |
| `Splice.InsertAfterRemove` | shestakov_n_a/prj.lab/arrayd/include/arrayd/arrayd.hpp:25-26 | re-inserting the removed element at the same position restores the original elements |
| `Splice.InsertedElements` | shestakov_n_a/prj.lab/arrayd/include/arrayd/arrayd.hpp:26 | insertion adds exactly one copy of `v` and loses no element (as multisets) |
| `Splice.RemovedElements` | shestakov_n_a/prj.lab/arrayd/include/arrayd/arrayd.hpp:25 | removal drops exactly one copy of the element at `j` and keeps every other element (as multisets) |
| `DynArray.CopyPrefix` | shestakov_n_a/prj.lab/arrayd/include/arrayd/arrayd.hpp:13-16 | the copy loop: the first `n` slots of the destination equal the source's, and the rest of the destination is untouched |
| `DynArray.ShiftRight` | shestakov_n_a/prj.lab/arrayd/include/arrayd/arrayd.hpp:26 | the shift made by `insert`: slots `[j, n)` move up one place, and every slot outside `(j, n]` is unchanged |
| `DynArray.ShiftLeft` | shestakov_n_a/prj.lab/arrayd/include/arrayd/arrayd.hpp:25 | the shift made by `remove`: slots `(j, n)` move down one place, and every slot outside `[j, n - 1)` is unchanged |
| `DynArray.ArrayD.Valid` | shestakov_n_a/prj.lab/arrayd/include/arrayd/arrayd.hpp:29-31 | the invariant holds only of an array that owns itself (`this in Repr`); its body ties `size`, `capacity`, `data` and `Contents` together |
| `DynArray.ArrayD.constructor` | shestakov_n_a/prj.lab/arrayd/include/arrayd/arrayd.hpp:11 | a default-constructed array is valid and empty: size 0, capacity 0, no buffer |
| `DynArray.ArrayD.Allocate` | shestakov_n_a/prj.lab/arrayd/include/arrayd/arrayd.hpp:14 | for `n >= 0`, a valid array with its own fresh storage, `n` elements and at least `n` slots |
| `DynArray.ArrayD.Sized` | shestakov_n_a/prj.lab/arrayd/include/arrayd/arrayd.hpp:14 | `ArrayD(n)` fails exactly when `n < 0`, with `InvalidArgument`; otherwise it yields a fresh valid array whose `ssize()` is `n` |
| `DynArray.ArrayD.Copy` | shestakov_n_a/prj.lab/arrayd/include/arrayd/arrayd.hpp:13 | the copy is valid, holds the same elements, and owns only fresh objects, so its buffer is not the source's |
| `DynArray.ArrayD.Assign` | shestakov_n_a/prj.lab/arrayd/include/arrayd/arrayd.hpp:16 | afterwards the target holds the elements `rhs` held; when `rhs` is another array, `rhs` is unchanged and the target's buffer is fresh; self-assignment changes no field of the target; the target itself is returned, as `operator=` returns `ArrayD&` |
| `DynArray.ArrayD.Ssize` | shestakov_n_a/prj.lab/arrayd/include/arrayd/arrayd.hpp:23 | `ssize()` is the number of elements; it is a total function of the state, so it cannot fail and changes nothing |
| `DynArray.ArrayD.Get` | shestakov_n_a/prj.lab/arrayd/include/arrayd/arrayd.hpp:20-21 | indexing succeeds exactly when `0 <= i < size` and then yields element `i`; otherwise it signals `OutOfRange`; it changes nothing |
| `DynArray.ArrayD.Set` | shestakov_n_a/prj.lab/arrayd/include/arrayd/arrayd.hpp:20 | writing through the mutable `operator[]` succeeds exactly when `0 <= i < size` and replaces element `i` alone; otherwise it signals `OutOfRange` and changes no field or slot; size, capacity and buffer never change |
| `DynArray.ArrayD.Reallocate` | shestakov_n_a/prj.lab/arrayd/include/arrayd/arrayd.hpp:24-26 | the growth step of `resize` and `insert`: a fresh buffer of the requested capacity holding the same elements in the same order |
| `DynArray.ArrayD.Resize` | shestakov_n_a/prj.lab/arrayd/include/arrayd/arrayd.hpp:24 | `resize(n)` fails exactly when `n < 0`, with `InvalidArgument` and no change to any field or slot; otherwise the size becomes `n`, the capacity is at least `n`, and the first `min(old size, n)` elements keep their values |
| `DynArray.ArrayD.Insert` | shestakov_n_a/prj.lab/arrayd/include/arrayd/arrayd.hpp:26 | `insert(v, j)` succeeds exactly when `0 <= j <= size`, turning the contents into `Inserted(s, j, v)` without lowering the capacity; otherwise it signals `OutOfRange` and changes no field or slot |
| `DynArray.ArrayD.Remove` | shestakov_n_a/prj.lab/arrayd/include/arrayd/arrayd.hpp:25 | `remove(j)` succeeds exactly when `0 <= j < size`, turning the contents into `Removed(s, j)` without raising the capacity; otherwise it signals `OutOfRange` and changes no field or slot |
| `DynArrayClient.InsertThenRemove` | shestakov_n_a/prj.lab/arrayd/include/arrayd/arrayd.hpp:25-26 | on any valid array and any `j`, `insert(v, j)` followed by `remove(j)` leaves the contents as they were; both succeed exactly when `0 <= j <= size` |
| `DynArrayClient.CopyIsDeep` | shestakov_n_a/prj.lab/arrayd/include/arrayd/arrayd.hpp:13 | after writing element 0 of a copy, element 0 of the original is what it was and element 0 of the copy is the new value |
| `DynArrayClient.InsertRemoveExample` | shestakov_n_a/prj.lab/arrayd/include/arrayd/arrayd.hpp:20-26 | from `[1, 2, 3]`, `insert(9, 1)` then `remove(0)` leaves three elements with 9 first, and index 3 signals `OutOfRange` |
| `DynArrayClient.ResizeExample` | shestakov_n_a/prj.lab/arrayd/include/arrayd/arrayd.hpp:20-24 | `resize(0)` on five elements gives `ssize() == 0` and makes index 0 out of range; `resize(-1)` is rejected with `InvalidArgument` |

## Left out

- The destructor and the release of storage (`delete[]`, line 18): Dafny's heap is garbage-collected. Exclusive ownership is expressed instead by each array's `Repr` holding only objects allocated for it.
- `std::ptrdiff_t` is a fixed-width signed integer, 64 bits on common platforms, while `size` and `capacity` are unbounded integers here. Overflow would need more memory than exists, so it is not modelled.
- The C++ exceptions themselves: every error comes back as an `Error` value in the result.
- Allocation failure: a failing `new[]` in `ArrayD(n)`, `resize`, `insert` or the copies throws `std::bad_alloc` in C++, while `new T[n]` always succeeds here, so `Sized` succeeds for every `n >= 0` and no operation reports running out of memory.
- The reference returned by the mutable `operator[]` is modelled by two operations: reading at once (`Get`) and writing at once (`Set`). A reference kept across a later reallocation, which would dangle in C++, is not modelled.
- The `#include <iostream>` of line 1: nothing in the array uses it.
- The geometry and canvas header `geo2d.hpp`. It only formats and parses `double`s through streams and emits a fixed document around its figures, so it is not part of this model.
- DynArray.ArrayD.Insert: the contract says only that the capacity does not fall, not by how much it grows when the buffer is full. The header does not fix a growth policy; the model's `Insert` doubles it (or takes one slot when there were none).
- DynArray.ArrayD.Remove: the contract says only that the capacity does not rise, because the header does not say whether `remove` shrinks the buffer. The model's `Remove` never shrinks it.
- DynArray.ArrayD.Resize: the contract says only that the capacity is at least `n`. It does not say whether a resize within capacity keeps the buffer, or whether a shrinking resize gives slots back, because the header fixes neither. The model's `Resize` reallocates only when `n` exceeds the capacity.
- DynArray.ArrayD.Allocate: the contract does not say what values the `n` new elements have, nor the exact capacity, because the header fixes neither.

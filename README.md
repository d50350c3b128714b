# Bucket: an append-only growable array with a read-only list view

MoreLINQ's partitioning operator collects the elements that belong to one
partition in a `Bucket<TElement>`. A bucket is a backing array `Elements`
(length 1 when created) and a logical `Count` (0 when created). `Add`
doubles the array when it is full and stores the new element at slot
`Count`. The bucket is exposed as an `IList<TElement>`. Its reads
(the indexer's getter, `Contains`, `IndexOf`, `CopyTo` and enumeration)
look only at slots `[0, Count)`. Its other mutators (the indexer's setter,
the interface's `Add`, `Clear`, `Remove`, `Insert` and `RemoveAt`) throw
`NotSupportedException`.

The model is one module, `Buckets` (`bucket.dfy`):

- `Bucket<T>` is a class with the two real fields `elements: array<T>` and
  `count: int`, and two ghost fields. `contents` holds the elements
  appended so far, in order. `moves` counts the elements that all resizes
  together have copied.
- `Valid()` is the object invariant: `0 <= count <= elements.Length`,
  `elements.Length >= 1`, `elements[..count] == contents`. It also says that
  the capacity is `Capacity(count)`, which starts at 1 and doubles exactly
  when an append finds the array full, and that `moves == elements.Length - 1`.
- The lemmas about `Capacity` say the capacity is a power of two, at least
  the count, and, once the bucket is non-empty, less than twice the count.
  With `moves` this gives the amortised bound: `n >= 1` appends copy fewer
  than `2n` elements in all.
- Thrown exceptions become values: `Result<T>` (`Ok` or `Err`) and
  `Outcome` (`Pass` or `Fail`) carry a `Failure` (`OutOfRange`,
  `InvalidArgument`, `NotSupported`).
- The rejected mutators are methods with no `modifies` clause. Dafny's frame
  rule therefore guarantees they leave `count`, `elements` and its slots
  unchanged. Each returns the `NotSupported` failure.
- `Array.Resize` and `Array.Copy`, the .NET routines the bucket calls, are
  modelled by a `Resize` method and by the copy loop inside `CopyTo`.
- `FirstIndexOf` is the meaning of `Array.IndexOf` restricted to the first
  `count` slots.

Module `BucketScenarios` (`scenarios.dfy`) holds clients that rely only on
the contracts. They mirror how the partitioning operator uses a bucket:
append in source order, then read back.

Three details of `Add` and the enumerator:

- Growth is by exactly a factor of two.
- `checked(Count << 1)` does not check the shift. At `Count == 2^30` the new
  size wraps to a negative number, and `Array.Resize` then throws
  `ArgumentOutOfRangeException` rather than an overflow error.
- The enumerator re-reads `Count` at each step, so appends made during an
  enumeration are seen.

## Model

| member | source | states |
|---|---|---|
| `Buckets.Bucket.constructor` | MoreLinq/Bucket.cs:33-34 | a new bucket has an array of length 1, count 0 and no contents, and satisfies the invariant |
| `Buckets.Bucket.Count` | MoreLinq/Bucket.cs:36 | the reported count is the number of elements appended |
| `Buckets.Bucket.Add` | MoreLinq/Bucket.cs:40-46 | the contents become the old contents followed by the element and the count rises by one; when the array was full it is replaced by a fresh one of exactly twice the old count and the abandoned array is left untouched, otherwise it is the same array with the same length; the invariant is kept, and resizes have copied fewer than 2·count elements in all |
| `Buckets.Resize` | MoreLinq/Bucket.cs:43 | `Array.Resize` to the current size keeps the same array; to a larger size it yields a fresh array of that size; either way the prefix equals the old array |
| `Buckets.CapacityBounds` | MoreLinq/Bucket.cs:42-43 | the capacity is at least 1 and at least the count, and below twice the count once the bucket is non-empty |
| `Buckets.CapacityIsPowerOfTwo` | MoreLinq/Bucket.cs:42-43 | starting from 1 and doubling only when full, the capacity is always a power of two |
| `Buckets.Bucket.Enumerate` | MoreLinq/Bucket.cs:48-52 | enumeration yields exactly the appended elements, in append order, and nothing from the slots past the count |
| `Buckets.Bucket.Contains` | MoreLinq/Bucket.cs:56-63 | true if and only if the item equals one of the appended elements; slots past the count are never consulted |
| `Buckets.FirstIndexOf` | MoreLinq/Bucket.cs:67 | the result is -1 exactly when the value is absent; otherwise it is an index holding the value with no earlier occurrence |
| `Buckets.FirstIndexOfUnique` | MoreLinq/Bucket.cs:67 | an index that holds the value with no earlier occurrence is the first index |
| `Buckets.FirstIndexOfAppend` | MoreLinq/Bucket.cs:40-46 | appending keeps the first index of every value already present; otherwise the index is the new slot if the appended element matches, and -1 if it does not |
| `Buckets.Bucket.IndexOf` | MoreLinq/Bucket.cs:67 | the result is the first index of the item among the appended elements, or -1 when it is absent |
| `Buckets.Bucket.Get` | MoreLinq/Bucket.cs:69-77 | for 0 <= index < count, the result is the element appended at that position; a negative index or one at or past the count is out of range |
| `Buckets.Bucket.CopyTo` | MoreLinq/Bucket.cs:65 | a negative index is out of range and a destination too short is an invalid argument, and then nothing is written; otherwise the destination slots from the index on hold the contents and every other slot is unchanged |
| `Buckets.Bucket.Set` | MoreLinq/Bucket.cs:79 | the indexer's setter always fails with not-supported and changes nothing |
| `Buckets.Bucket.CollectionAdd` | MoreLinq/Bucket.cs:82 | the interface's `Add` always fails with not-supported and changes nothing |
| `Buckets.Bucket.Clear` | MoreLinq/Bucket.cs:84 | `Clear` always fails with not-supported and changes nothing |
| `Buckets.Bucket.Remove` | MoreLinq/Bucket.cs:86 | `Remove` always fails with not-supported and changes nothing |
| `Buckets.Bucket.Insert` | MoreLinq/Bucket.cs:88 | `Insert` always fails with not-supported and changes nothing |
| `Buckets.Bucket.RemoveAt` | MoreLinq/Bucket.cs:90 | `RemoveAt` always fails with not-supported and changes nothing |
| `BucketScenarios.AppendAllThenRead` | MoreLinq/Bucket.cs:40-77 | after appending any sequence to a new bucket, the count is its length and each index reads back its element, however many resizes happened; other indices are out of range |
| `BucketScenarios.OneTwoThree` | MoreLinq/Bucket.cs:40-90 | after appending 1, 2, 3: count 3, first 1, last 3, 2 is contained, 4 has index -1, index 3 is out of range, and a rejected `Clear` leaves the count at 3 |
| `BucketScenarios.TenAppends` | MoreLinq/Bucket.cs:40-52 | ten appends from capacity 1 keep all ten elements in order and end with an array of length 16, the resizes having copied 15 elements in all |
| `BucketScenarios.Empty` | MoreLinq/Bucket.cs:56-77 | an empty bucket has count 0, contains nothing, finds nothing, and both index 0 and index -1 are out of range |

## Left out

- The lazy `yield return` enumerator and the non-generic `IEnumerable` bridge: enumeration is a method that returns the elements as a sequence. Appending while an enumeration is in progress is not modelled.
- The interface plumbing: the `IBucket` interface, the split between explicit interface members and public members, and `IsReadOnly`.
- 32-bit arithmetic: `count` and the capacity are unbounded integers, so the wrap of `Count << 1` at `Count == 2^30` and the resulting exception from `Array.Resize` are not modelled.
- Equality: `object.Equals` and `EqualityComparer<T>.Default` become Dafny's built-in equality on `T`.
- `Buckets.Bucket.CopyTo`: requires the destination not to be the bucket's own array. `Array.Copy` would handle that overlap like a memory move, but the bucket's state would then change. A null destination cannot occur, because Dafny arrays are non-null.
- `Buckets.Resize`: does not state that the slots past the old length hold the default value, because a generic `T` has no nameable default.
- Direct writes to the public fields `Elements` and `Count` by other code in the library: the invariant assumes that only `Add` changes them.
- Thread safety: the class has none, and the model is sequential.

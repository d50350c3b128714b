/**
 * An append-only, growable array that a partitioning operator uses to
 * collect the elements of one partition.  It exposes a read-only list
 * view: indexed read, containment, first index, copy-out and in-order
 * enumeration, all limited to the first `count` slots of the backing
 * array.  Every list mutator other than the internal append fails with
 * "not supported".
 */
module Buckets {

  /** The exceptions the bucket (and the runtime routines it calls) raise. */
  datatype Failure =
    | OutOfRange        // ArgumentOutOfRangeException
    | InvalidArgument   // ArgumentException
    | NotSupported      // NotSupportedException

  /** The outcome of an operation that returns a value or throws. */
  datatype Result<T> = Ok(value: T) | Err(failure: Failure)

  /** The outcome of an operation that returns nothing or throws. */
  datatype Outcome = Pass | Fail(failure: Failure)

  /**
   * The position of the first occurrence of `x` in `s`, or -1 when there
   * is none: the meaning of a linear equality scan such as Array.IndexOf.
   */
  function FirstIndexOf<T(==)>(s: seq<T>, x: T): (r: int)
    ensures -1 <= r < |s|
    ensures r == -1 <==> x !in s
    ensures 0 <= r ==> s[r] == x && x !in s[..r]
  {
    if s == [] then -1
    else if s[0] == x then 0
    else
      var k := FirstIndexOf(s[1..], x);
      if k == -1 then -1
      else
        assert s[..k + 1] == [s[0]] + s[1..][..k];
        k + 1
  }

  /** Any index holding the first occurrence of `x` is the one FirstIndexOf finds. */
  lemma FirstIndexOfUnique<T>(s: seq<T>, x: T, i: int)
    requires 0 <= i < |s| && s[i] == x && x !in s[..i]
    ensures FirstIndexOf(s, x) == i
  {
  }

  /**
   * Appending never moves the first occurrence of a value that is already
   * present, so an index reported for a bucket stays valid as it grows.
   */
  lemma FirstIndexOfAppend<T>(s: seq<T>, e: T, x: T)
    ensures FirstIndexOf(s + [e], x) ==
              if x in s then FirstIndexOf(s, x)
              else if e == x then |s|
              else -1
  {
    var t := s + [e];
    assert t[..|s|] == s;
    if x in s {
      var i := FirstIndexOf(s, x);
      assert t[..i] == s[..i];
      FirstIndexOfUnique(t, x, i);
    } else if e == x {
      FirstIndexOfUnique(t, x, |s|);
    } else {
      assert x !in t;
    }
  }

  /**
   * The length of the backing array of a bucket holding `n` elements: it
   * starts at 1 and doubles exactly when an append finds the array full.
   */
  function Capacity(n: nat): (c: nat)
  {
    if n == 0 then 1
    else
      var prev := Capacity(n - 1);
      if prev == n - 1 then 2 * (n - 1) else prev
  }

  /** Powers of two: 1, 2, 4, 8, ... */
  predicate IsPowerOfTwo(c: nat)
  {
    c == 1 || (c >= 2 && c % 2 == 0 && IsPowerOfTwo(c / 2))
  }

  /**
   * The capacity always holds the elements, and it is never more than
   * twice what it needs: less than 2n for n >= 1.
   */
  lemma {:induction false} CapacityBounds(n: nat)
    ensures 1 <= Capacity(n)
    ensures n <= Capacity(n)
    ensures 1 <= n ==> Capacity(n) < 2 * n
  {
    if n > 0 {
      CapacityBounds(n - 1);
    }
  }

  /** Repeated doubling from 1 only ever yields powers of two. */
  lemma {:induction false} CapacityIsPowerOfTwo(n: nat)
    ensures IsPowerOfTwo(Capacity(n))
  {
    if n > 0 {
      CapacityIsPowerOfTwo(n - 1);
      CapacityBounds(n - 1);
      var c := Capacity(n - 1);
      if c == n - 1 {
        assert Capacity(n) == 2 * c && (2 * c) / 2 == c;
      }
    }
  }

  /**
   * Array.Resize to a size at least the current length: the same array
   * when the size does not change, otherwise a fresh array of the new size
   * whose prefix is a copy of the old array.
   */
  method Resize<T(0)>(a: array<T>, newSize: int) returns (b: array<T>)
    requires a.Length <= newSize
    ensures newSize == a.Length ==> b == a
    ensures newSize != a.Length ==> fresh(b)
    ensures b.Length == newSize
    ensures b[..a.Length] == a[..]
  {
    if newSize == a.Length {
      return a;
    }
    b := new T[newSize];
    var i := 0;
    while i < a.Length
      invariant 0 <= i <= a.Length
      invariant b[..i] == a[..i]
    {
      b[i] := a[i];
      i := i + 1;
    }
  }

  class Bucket<T(0, ==)> {
    /** The backing array; slots at `count` and beyond are not part of the bucket. */
    var elements: array<T>
    /** The number of elements appended so far. */
    var count: int

    /** The elements appended so far, in append order. */
    ghost var contents: seq<T>
    /** How many elements all resizes together have copied so far. */
    ghost var moves: nat

    ghost predicate Valid()
      reads this, elements
    {
      0 <= count <= elements.Length &&
      1 <= elements.Length &&
      elements.Length == Capacity(count) &&
      elements[..count] == contents &&
      moves == elements.Length - 1
    }

    /** A new bucket: an array of length 1 and no elements. */
    constructor ()
      ensures Valid() && fresh(elements)
      ensures count == 0 && elements.Length == 1 && contents == []
    {
      elements := new T[1];
      count := 0;
      contents := [];
      moves := 0;
    }

    /** ICollection.Count: the number of elements appended. */
    function Count(): (n: int)
      reads this, elements
      requires Valid()
      ensures n == |contents|
    {
      count
    }

    /**
     * Append `element`: when the array is full it is resized to twice the
     * count first, then the element goes into slot `count`.
     */
    method Add(element: T)
      requires Valid()
      modifies this, elements
      ensures Valid()
      ensures contents == old(contents) + [element]
      ensures count == old(count) + 1
      ensures old(elements.Length) == old(count) ==>
                fresh(elements) && elements.Length == 2 * old(count) &&
                old(elements)[..] == old(elements[..])
      ensures old(elements.Length) != old(count) ==>
                elements == old(elements) && elements.Length == old(elements.Length)
      ensures moves < 2 * count
    {
      if elements.Length == count {
        elements := Resize(elements, 2 * count);
        moves := moves + count;
      }
      elements[count] := element;
      count := count + 1;
      contents := contents + [element];
      CapacityBounds(count);
    }

    /** Enumeration: the elements in slots 0 .. count-1, in order. */
    method Enumerate() returns (items: seq<T>)
      requires Valid()
      ensures items == contents
    {
      items := [];
      var i := 0;
      while i < count
        invariant 0 <= i <= count
        invariant items == contents[..i]
      {
        items := items + [elements[i]];
        i := i + 1;
      }
    }

    /** ICollection.Contains: a scan of slots 0 .. count-1 for an equal element. */
    method Contains(item: T) returns (found: bool)
      requires Valid()
      ensures found <==> item in contents
    {
      var i := 0;
      while i < count
        invariant 0 <= i <= count
        invariant item !in contents[..i]
      {
        if elements[i] == item {
          return true;
        }
        assert contents[..i + 1] == contents[..i] + [contents[i]];
        i := i + 1;
      }
      assert contents[..count] == contents;
      return false;
    }

    /** IList.IndexOf: the first slot below count holding `item`, or -1. */
    method IndexOf(item: T) returns (index: int)
      requires Valid()
      ensures index == FirstIndexOf(contents, item)
    {
      var i := 0;
      while i < count
        invariant 0 <= i <= count
        invariant item !in contents[..i]
      {
        if elements[i] == item {
          FirstIndexOfUnique(contents, item, i);
          return i;
        }
        assert contents[..i + 1] == contents[..i] + [contents[i]];
        i := i + 1;
      }
      assert contents[..count] == contents;
      return -1;
    }

    /** The IList indexer's getter: the element at `index`, or out of range. */
    function Get(index: int): (r: Result<T>)
      reads this, elements
      requires Valid()
      ensures r == if 0 <= index < |contents| then Ok(contents[index]) else Err(OutOfRange)
    {
      if index < 0 || index >= count then Err(OutOfRange) else Ok(elements[index])
    }

    /**
     * ICollection.CopyTo, which is Array.Copy of slots 0 .. count-1 to
     * `dest` at `arrayIndex`: a negative index is out of range, a
     * destination too short for `count` elements is an invalid argument,
     * and on failure nothing is written.
     */
    method CopyTo(dest: array<T>, arrayIndex: int) returns (r: Outcome)
      requires Valid()
      requires dest != elements
      modifies dest
      ensures r == if arrayIndex < 0 then Fail(OutOfRange)
                   else if arrayIndex + |contents| > dest.Length then Fail(InvalidArgument)
                   else Pass
      ensures r.Fail? ==> dest[..] == old(dest[..])
      ensures r.Pass? ==>
                dest[arrayIndex..arrayIndex + |contents|] == contents &&
                dest[..arrayIndex] == old(dest[..arrayIndex]) &&
                dest[arrayIndex + |contents|..] == old(dest[arrayIndex + |contents|..])
    {
      if arrayIndex < 0 {
        return Fail(OutOfRange);
      }
      if arrayIndex > dest.Length - count {
        return Fail(InvalidArgument);
      }
      var i := 0;
      while i < count
        invariant 0 <= i <= count
        invariant dest[arrayIndex..arrayIndex + i] == contents[..i]
        invariant dest[..arrayIndex] == old(dest[..arrayIndex])
        invariant dest[arrayIndex + i..] == old(dest[arrayIndex + i..])
      {
        dest[arrayIndex + i] := elements[i];
        i := i + 1;
      }
      return Pass;
    }

    /** The IList indexer's setter: never supported. */
    method Set(index: int, item: T) returns (r: Outcome)
      ensures r == Fail(NotSupported)
    {
      return Fail(NotSupported);
    }

    /** The explicit ICollection.Add: never supported. */
    method CollectionAdd(item: T) returns (r: Outcome)
      ensures r == Fail(NotSupported)
    {
      return Fail(NotSupported);
    }

    /** ICollection.Clear: never supported. */
    method Clear() returns (r: Outcome)
      ensures r == Fail(NotSupported)
    {
      return Fail(NotSupported);
    }

    /** ICollection.Remove: never supported (it would have returned a bool). */
    method Remove(item: T) returns (r: Result<bool>)
      ensures r == Err(NotSupported)
    {
      return Err(NotSupported);
    }

    /** IList.Insert: never supported. */
    method Insert(index: int, item: T) returns (r: Outcome)
      ensures r == Fail(NotSupported)
    {
      return Fail(NotSupported);
    }

    /** IList.RemoveAt: never supported. */
    method RemoveAt(index: int) returns (r: Outcome)
      ensures r == Fail(NotSupported)
    {
      return Fail(NotSupported);
    }
  }
}

/**
 * Clients of the bucket that use only the contracts of module Buckets,
 * the way the partitioning operator uses it: create a bucket, append the
 * matching elements in source order, then read them back.
 */
module BucketScenarios {
  import opened Buckets

  /**
   * Append every element of `xs` to a fresh bucket, then read slot `i`:
   * the count is |xs| and slot i holds xs[i], however many resizes the
   * appends caused; any other index is out of range.
   */
  method AppendAllThenRead<T(0, ==)>(xs: seq<T>, i: int) returns (n: int, r: Result<T>)
    ensures n == |xs|
    ensures r == if 0 <= i < |xs| then Ok(xs[i]) else Err(OutOfRange)
  {
    var b := new Bucket<T>();
    var k := 0;
    while k < |xs|
      invariant 0 <= k <= |xs|
      invariant b.Valid() && fresh(b.elements)
      invariant b.contents == xs[..k]
    {
      b.Add(xs[k]);
      k := k + 1;
    }
    assert xs[..k] == xs;
    n := b.Count();
    r := b.Get(i);
  }

  /**
   * Append 1, 2, 3; read the count, both ends, containment of 2, the index
   * of 4, the slot just past the end, and try the rejected mutators.
   */
  method OneTwoThree() returns (n: int, first: Result<int>, last: Result<int>,
                                hasTwo: bool, whereFour: int, past: Result<int>,
                                cleared: Outcome, after: int)
    ensures n == 3 && first == Ok(1) && last == Ok(3)
    ensures hasTwo && whereFour == -1 && past == Err(OutOfRange)
    ensures cleared == Fail(NotSupported) && after == 3
  {
    var b := new Bucket<int>();
    b.Add(1);
    b.Add(2);
    b.Add(3);
    assert b.contents == [1, 2, 3];
    n := b.Count();
    first := b.Get(0);
    last := b.Get(2);
    hasTwo := b.Contains(2);
    whereFour := b.IndexOf(4);
    past := b.Get(3);
    cleared := b.Clear();
    var _ := b.RemoveAt(0);
    var _ := b.Set(0, 7);
    after := b.Count();
  }

  /**
   * Append ten elements starting from capacity 1: the array has grown to
   * 16, every element is still in place, and the resizes copied 15
   * elements in all.
   */
  method TenAppends() returns (items: seq<int>, capacity: int, ghost moved: nat)
    ensures items == [0, 1, 2, 3, 4, 5, 6, 7, 8, 9]
    ensures capacity == 16
    ensures moved == 15
  {
    var b := new Bucket<int>();
    var k := 0;
    while k < 10
      invariant 0 <= k <= 10
      invariant b.Valid() && fresh(b.elements)
      invariant b.contents == seq(k, j => j)
    {
      b.Add(k);
      k := k + 1;
    }
    items := b.Enumerate();
    capacity := b.elements.Length;
    assert Capacity(10) == 16;
    moved := b.moves;
  }

  /** An empty bucket: nothing is contained, found or readable. */
  method Empty(x: int) returns (n: int, has: bool, where: int, atZero: Result<int>, atMinusOne: Result<int>)
    ensures n == 0 && !has && where == -1
    ensures atZero == Err(OutOfRange) && atMinusOne == Err(OutOfRange)
  {
    var b := new Bucket<int>();
    n := b.Count();
    has := b.Contains(x);
    where := b.IndexOf(x);
    atZero := b.Get(0);
    atMinusOne := b.Get(-1);
  }
}

/** The growing array behind the read set, the write set and the fail callbacks. */
module PodVector {
  const START_SIZE: nat := 1024

  /** `s` without its element `i`: the last element takes the vacant place. */
  function Erased<T>(s: seq<T>, i: nat): (r: seq<T>)
    requires i < |s|
    ensures |r| == |s| - 1
  {
    s[i := s[|s| - 1]][..|s| - 1]
  }

  /** What erasing the element in front of `t` makes of `t`: the last element comes first. */
  function Rotated<T>(t: seq<T>): seq<T> {
    if t == [] then [] else [t[|t| - 1]] + t[..|t| - 1]
  }

  lemma RotatedSame<T>(t: seq<T>)
    ensures multiset(Rotated(t)) == multiset(t)
  {
    if t != [] {
      assert t == t[..|t| - 1] + [t[|t| - 1]];
    }
  }

  /** Everything before the erased element stays where it is, everything behind it stays. */
  lemma ErasedBetween<T>(p: seq<T>, x: T, t: seq<T>)
    ensures Erased(p + [x] + t, |p|) == p + Rotated(t)
  {
  }

  /** Exactly the erased element is gone. */
  lemma ErasedRemovesOne<T>(s: seq<T>, i: nat)
    requires i < |s|
    ensures multiset(Erased(s, i)) == multiset(s) - multiset{s[i]}
  {
    assert s == s[..i] + [s[i]] + s[i + 1..];
    ErasedBetween(s[..i], s[i], s[i + 1..]);
    RotatedSame(s[i + 1..]);
  }

  class PodVector<T> {
    var buffer: array<T>
    var end: nat

    /** Between operations there is room for one more element. */
    ghost predicate Valid()
      reads this, buffer
    {
      end < buffer.Length
    }

    function Contents(): seq<T>
      requires Valid()
      reads this, buffer
    {
      buffer[..end]
    }

    // `filler` stands for what uninitialized memory happens to hold.
    constructor (filler: T)
      ensures Valid() && fresh(buffer) && Contents() == []
    {
      buffer := new T[START_SIZE](_ => filler);
      end := 0;
    }

    predicate Empty()
      reads this
    {
      end == 0
    }

    function Capacity(): nat
      reads this
    {
      buffer.Length
    }

    predicate AllocatesOnNextPush()
      reads this
    {
      end == buffer.Length - 1
    }

    /** Moves the elements to a buffer of the given size. */
    method Reallocate(capacity: nat)
      requires 0 < buffer.Length && end <= buffer.Length && end < capacity
      modifies this`buffer
      ensures Valid() && fresh(buffer) && Capacity() == capacity
      ensures Contents() == old(buffer[..end])
    {
      var filler := buffer[0];
      var newBuffer := new T[capacity](_ => filler);
      forall i | 0 <= i < end {
        newBuffer[i] := buffer[i];
      }
      assert newBuffer[..end] == buffer[..end];
      buffer := newBuffer;
    }

    method EmplaceBack(x: T)
      requires Valid()
      modifies this, buffer
      ensures Valid() && Contents() == old(Contents()) + [x]
      ensures if old(AllocatesOnNextPush()) then fresh(buffer) && Capacity() == 2 * old(Capacity())
              else buffer == old(buffer)
    {
      buffer[end] := x;
      end := end + 1;
      assert buffer[..end] == old(buffer[..end]) + [x];
      if end == buffer.Length {
        Reallocate(2 * Capacity());
      }
    }

    method UncheckedEmplaceBack(x: T)
      requires Valid() && !AllocatesOnNextPush()
      modifies this`end, buffer
      ensures Valid() && Contents() == old(Contents()) + [x]
    {
      buffer[end] := x;
      end := end + 1;
      assert buffer[..end] == old(buffer[..end]) + [x];
    }

    method UnorderedErase(i: nat)
      requires Valid() && i < |Contents()|
      modifies this`end, buffer
      ensures Valid() && Contents() == Erased(old(Contents()), i)
    {
      end := end - 1;
      buffer[i] := buffer[end];
      assert buffer[..end] == Erased(old(buffer[..end]), i);
    }

    method Set(i: nat, x: T)
      requires Valid() && i < |Contents()|
      modifies buffer
      ensures Valid() && Contents() == old(Contents())[i := x]
    {
      buffer[i] := x;
      assert buffer[..end] == old(buffer[..end])[i := x];
    }

    method Clear()
      requires Valid()
      modifies this`end
      ensures Valid() && Contents() == []
    {
      end := 0;
    }

    /** Keeps the elements in the smallest buffer that leaves room for one more. */
    method ShrinkToFit()
      requires Valid()
      modifies this`buffer
      ensures Valid() && Contents() == old(Contents()) && Capacity() == |Contents()| + 1
      ensures buffer == old(buffer) || fresh(buffer)
    {
      var newCapacity := end + 1;
      if newCapacity != Capacity() {
        Reallocate(newCapacity);
      }
    }
  }
}

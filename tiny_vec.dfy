/**
 * `TinyVec<T, CAPACITY>` (`util/tiny_vec.rs`): a vector stored in a
 * fixed-size array, of which the first `count` slots are in use.
 */
module TinyVecs {

  class TinyVec<T(0)> {
    /** The backing array; its length is `CAPACITY`. */
    const storage: array<T>
    var count: nat

    predicate Valid()
      reads this
    {
      count <= storage.Length
    }

    /** What `deref` shows: the slots in use, in the order they were pushed. */
    function Elements(): seq<T>
      requires Valid()
      reads this, storage
    {
      storage[..count]
    }

    /** `TinyVec::new`: an empty vector with room for `capacity` elements. */
    constructor (capacity: nat)
      ensures Valid() && fresh(storage) && storage.Length == capacity
      ensures Elements() == []
    {
      storage := new T[capacity];
      count := 0;
    }

    method Len() returns (n: nat)
      requires Valid()
      ensures n == |Elements()|
    {
      return count;
    }

    /** `push`: the Rust code asserts that the capacity is not exceeded. */
    method Push(value: T)
      requires Valid() && count < storage.Length
      modifies this, storage
      ensures Valid()
      ensures Elements() == old(Elements()) + [value]
    {
      storage[count] := value;
      count := count + 1;
    }

    /** `clear`: drops the elements in use and forgets them. */
    method Clear()
      requires Valid()
      modifies this
      ensures Valid() && Elements() == []
    {
      count := 0;
    }

    /** Indexing: in range, the element pushed at that position; out of range it panics. */
    method Get(index: nat) returns (element: T)
      requires Valid() && index < count
      ensures element == Elements()[index]
    {
      return storage[index];
    }

    /** `extend_from_slice`: pushes every element of `other`, in order. */
    method ExtendFromSlice(other: seq<T>)
      requires Valid() && count + |other| <= storage.Length
      modifies this, storage
      ensures Valid()
      ensures Elements() == old(Elements()) + other
    {
      var i := 0;
      while i < |other|
        invariant 0 <= i <= |other|
        invariant Valid() && count == old(count) + i
        invariant Elements() == old(Elements()) + other[..i]
      {
        Push(other[i]);
        assert other[..i + 1] == other[..i] + [other[i]];
        i := i + 1;
      }
      assert other[..i] == other;
    }

    /** `clone`: a new vector of the same capacity holding the same elements in the same order. */
    method Clone() returns (result: TinyVec<T>)
      requires Valid()
      ensures fresh(result) && fresh(result.storage) && result.Valid()
      ensures result.storage.Length == storage.Length
      ensures result.Elements() == Elements()
    {
      result := new TinyVec(storage.Length);
      var i := 0;
      while i < count
        invariant 0 <= i <= count
        invariant fresh(result) && fresh(result.storage) && result.Valid()
        invariant result.storage.Length == storage.Length && result.count == i
        invariant result.Elements() == Elements()[..i]
      {
        result.Push(storage[i]);
        i := i + 1;
      }
    }
  }

  /** `From<[T; N]>`: asserts `N <= CAPACITY`, then pushes the array's elements in order. */
  method FromArray<T(0)>(arr: seq<T>, capacity: nat) returns (v: TinyVec<T>)
    requires |arr| <= capacity
    ensures fresh(v) && fresh(v.storage) && v.Valid()
    ensures v.storage.Length == capacity && v.Elements() == arr
  {
    v := new TinyVec(capacity);
    var i := 0;
    while i < |arr|
      invariant 0 <= i <= |arr|
      invariant fresh(v) && fresh(v.storage) && v.Valid()
      invariant v.storage.Length == capacity && v.count == i
      invariant v.Elements() == arr[..i]
    {
      v.Push(arr[i]);
      assert arr[..i + 1] == arr[..i] + [arr[i]];
      i := i + 1;
    }
    assert arr[..i] == arr;
  }

  /**
   * `test_full_capacity`: sixteen pushes fill a vector of capacity 16 with
   * 1..16 in order, after which a further push is refused.
   */
  method FillToCapacity() returns (v: TinyVec<int>)
    ensures v.Valid() && v.count == v.storage.Length == 16
    ensures v.Elements() == [1, 2, 3, 4, 5, 6, 7, 8, 9, 10, 11, 12, 13, 14, 15, 16]
  {
    v := new TinyVec(16);
    var i := 0;
    while i < 16
      invariant 0 <= i <= 16
      invariant fresh(v.storage) && v.Valid() && v.storage.Length == 16 && v.count == i
      invariant forall k :: 0 <= k < i ==> v.Elements()[k] == k + 1
    {
      v.Push(i + 1);
      i := i + 1;
    }
  }
}

/**
 * `BitSet<u16, Element>` (`util/bitset.rs`): a set of small numbers kept as
 * the bits of a `u16`. An element is turned into a `u16` index `i` and
 * stands for bit `i`.
 */
module BitSets {

  const BITS: bv16 := 16

  /** `1 << i` for an index that has a bit. */
  function Bit(i: bv16): bv16
    requires i < BITS
  {
    (1 as bv16) << i
  }

  /** Whether index `i` is in the set `bits` stands for. */
  predicate Has(bits: bv16, i: bv16)
    requires i < BITS
  {
    bits & Bit(i) != 0
  }

  /** `bits |= 1 << i`. */
  function AddBit(bits: bv16, i: bv16): bv16
    requires i < BITS
  {
    bits | Bit(i)
  }

  lemma OrSelf(bits: bv16, m: bv16)
    ensures (bits | m) & m == m
  {
  }

  lemma OrDisjoint(bits: bv16, m: bv16, n: bv16)
    requires m & n == 0
    ensures (bits | m) & n == bits & n
  {
  }

  lemma BitNonzero(i: bv16)
    requires i < BITS
    ensures Bit(i) != 0
  {
  }

  /** Distinct indices have disjoint bits. */
  lemma BitsDisjoint(i: bv16, j: bv16)
    requires i < BITS && j < BITS && i != j
    ensures Bit(i) & Bit(j) == 0
  {
  }

  /** No bit set, no element. */
  lemma EmptyHasNothing(i: bv16)
    requires i < BITS
    ensures !Has(0, i)
  {
  }

  lemma HasAddBitSame(bits: bv16, i: bv16)
    requires i < BITS
    ensures Has(AddBit(bits, i), i)
  {
    BitNonzero(i);
    OrSelf(bits, Bit(i));
  }

  lemma HasAddBitOther(bits: bv16, i: bv16, j: bv16)
    requires i < BITS && j < BITS && i != j
    ensures Has(AddBit(bits, i), j) == Has(bits, j)
  {
    BitsDisjoint(i, j);
    OrDisjoint(bits, Bit(i), Bit(j));
  }

  /** Adding an element puts it in the set and changes no other element. */
  lemma HasAddBit(bits: bv16, i: bv16, j: bv16)
    requires i < BITS && j < BITS
    ensures Has(AddBit(bits, i), j) <==> Has(bits, j) || j == i
  {
    if j == i {
      HasAddBitSame(bits, i);
    } else {
      HasAddBitOther(bits, i, j);
    }
  }

  /** Adding an element that is already there changes nothing. */
  lemma AddBitIdempotent(bits: bv16, i: bv16)
    requires i < BITS
    ensures AddBit(AddBit(bits, i), i) == AddBit(bits, i)
  {
    var m := Bit(i);
    assert (bits | m) | m == bits | m;
  }

  /** The number of elements at index `from` or above. */
  function CountFrom(bits: bv16, from: bv16): nat
    requires from <= BITS
    decreases BITS - from
  {
    if from == BITS then 0 else (if Has(bits, from) then 1 else 0) + CountFrom(bits, from + 1)
  }

  /** `count_ones`: the number of one bits. */
  function CountOnes(bits: bv16): nat
  {
    CountFrom(bits, 0)
  }

  lemma {:induction false} CountFromAddBit(bits: bv16, i: bv16, from: bv16)
    requires i < BITS && from <= BITS
    ensures CountFrom(AddBit(bits, i), from)
         == CountFrom(bits, from) + (if from <= i && !Has(bits, i) then 1 else 0)
    decreases BITS - from
  {
    if from < BITS {
      CountFromAddBit(bits, i, from + 1);
      HasAddBit(bits, i, from);
    }
  }

  /** Adding a new element adds one to the count; adding an old one, nothing. */
  lemma CountOnesAddBit(bits: bv16, i: bv16)
    requires i < BITS
    ensures CountOnes(AddBit(bits, i)) == CountOnes(bits) + (if Has(bits, i) then 0 else 1)
  {
    CountFromAddBit(bits, i, 0);
  }

  lemma {:induction false} CountFromEmpty(from: bv16)
    requires from <= BITS
    ensures CountFrom(0, from) == 0
    decreases BITS - from
  {
    if from < BITS {
      EmptyHasNothing(from);
      CountFromEmpty(from + 1);
    }
  }

  /** Adding every element of `elements` in turn. */
  function AddAll(bits: bv16, elements: seq<bv16>): (r: bv16)
    requires forall k :: 0 <= k < |elements| ==> elements[k] < BITS
    ensures forall j | 0 <= j < BITS :: Has(r, j) <==> Has(bits, j) || j in elements
    decreases |elements|
  {
    if elements == [] then bits
    else
      var r := AddAll(AddBit(bits, elements[0]), elements[1..]);
      assert forall j | 0 <= j < BITS :: Has(r, j) <==> Has(bits, j) || j in elements by {
        forall j | 0 <= j < BITS
          ensures Has(r, j) <==> Has(bits, j) || j in elements
        {
          HasAddBit(bits, elements[0], j);
          assert j in elements <==> j == elements[0] || j in elements[1..];
        }
      }
      r
  }

  /** The elements of `elements` that `bits` does not hold yet. */
  function NewElements(bits: bv16, elements: seq<bv16>): set<bv16>
    requires forall k :: 0 <= k < |elements| ==> elements[k] < BITS
  {
    set k | 0 <= k < |elements| && !Has(bits, elements[k]) :: elements[k]
  }

  /** The new elements of `x` followed by `rest`: those of `rest` not yet added, and `x` itself if it is new. */
  lemma NewElementsStep(bits: bv16, elements: seq<bv16>)
    requires |elements| > 0
    requires forall k :: 0 <= k < |elements| ==> elements[k] < BITS
    ensures elements[0] !in NewElements(AddBit(bits, elements[0]), elements[1..])
    ensures NewElements(bits, elements)
         == NewElements(AddBit(bits, elements[0]), elements[1..])
          + (if Has(bits, elements[0]) then {} else {elements[0]})
  {
    var x, rest := elements[0], elements[1..];
    var added := AddBit(bits, x);
    var before := NewElements(bits, elements);
    var after := NewElements(added, rest);
    HasAddBitSame(bits, x);
    forall y | y in before
      ensures y in after || (y == x && !Has(bits, x))
    {
      var k :| 0 <= k < |elements| && !Has(bits, elements[k]) && elements[k] == y;
      if k > 0 {
        assert rest[k - 1] == y;
        HasAddBit(bits, x, y);
      }
    }
    forall y | y in after
      ensures y in before
    {
      var k :| 0 <= k < |rest| && !Has(added, rest[k]) && rest[k] == y;
      assert elements[k + 1] == y;
      HasAddBit(bits, x, y);
    }
    if !Has(bits, x) {
      assert x in before;
    }
  }

  /** Adding all of `elements` counts each new element once, however often it occurs. */
  lemma {:induction false} CountOnesAddAll(bits: bv16, elements: seq<bv16>)
    requires forall k :: 0 <= k < |elements| ==> elements[k] < BITS
    ensures CountOnes(AddAll(bits, elements)) == CountOnes(bits) + |NewElements(bits, elements)|
    decreases |elements|
  {
    if elements == [] {
      assert NewElements(bits, elements) == {};
    } else {
      var x := elements[0];
      CountOnesAddAll(AddBit(bits, x), elements[1..]);
      CountOnesAddBit(bits, x);
      NewElementsStep(bits, elements);
    }
  }

  class BitSet {
    var bits: bv16

    /** `BitSet::new`: the default, empty set. */
    constructor ()
      ensures bits == 0
      ensures forall j | 0 <= j < BITS :: !Has(bits, j)
    {
      bits := 0;
      forall j | 0 <= j < BITS
        ensures !Has(0, j)
      {
        EmptyHasNothing(j);
      }
    }

    /** `contains`. */
    method Contains(element: bv16) returns (r: bool)
      requires element < BITS
      ensures r == Has(bits, element)
    {
      return bits & Bit(element) != 0;
    }

    /** `add`: the element is in the set afterwards, and nothing else changes. */
    method Add(element: bv16)
      requires element < BITS
      modifies this
      ensures bits == AddBit(old(bits), element)
      ensures forall j | 0 <= j < BITS :: Has(bits, j) <==> old(Has(bits, j)) || j == element
      ensures CountOnes(bits) == old(CountOnes(bits)) + (if old(Has(bits, element)) then 0 else 1)
    {
      forall j | 0 <= j < BITS
        ensures Has(AddBit(bits, element), j) <==> Has(bits, j) || j == element
      {
        HasAddBit(bits, element, j);
      }
      CountOnesAddBit(bits, element);
      bits := bits | Bit(element);
    }

    /** `count`: the number of one bits. */
    method Count() returns (n: nat)
      ensures n == CountOnes(bits)
      ensures n <= 16
    {
      CountFromBound(bits, 0);
      return CountOnes(bits);
    }
  }

  lemma {:induction false} CountFromBound(bits: bv16, from: bv16)
    requires from <= BITS
    ensures CountFrom(bits, from) <= (BITS - from) as int
    decreases BITS - from
  {
    if from < BITS {
      CountFromBound(bits, from + 1);
    }
  }

  /**
   * `from_iter`: an empty set with each element added in turn. It holds
   * exactly the elements given, and its count is the number of distinct
   * ones.
   */
  method FromIter(elements: seq<bv16>) returns (set_: BitSet)
    requires forall k :: 0 <= k < |elements| ==> elements[k] < BITS
    ensures fresh(set_)
    ensures set_.bits == AddAll(0, elements)
    ensures forall j | 0 <= j < BITS :: Has(set_.bits, j) <==> j in elements
    ensures CountOnes(set_.bits) == |set x | x in elements|
  {
    set_ := new BitSet();
    var i := 0;
    assert elements[i..] == elements;
    while i < |elements|
      invariant 0 <= i <= |elements|
      invariant fresh(set_)
      invariant AddAll(set_.bits, elements[i..]) == AddAll(0, elements)
    {
      assert elements[i..][1..] == elements[i + 1..];
      set_.Add(elements[i]);
      i := i + 1;
    }
    forall j | 0 <= j < BITS
      ensures !Has(0, j)
    {
      EmptyHasNothing(j);
    }
    CountOnesAddAll(0, elements);
    CountFromEmpty(0);
    assert NewElements(0, elements) == set x | x in elements;
  }

  // ---- The index guard as written ----

  /**
   * `1 << i` on `u16` in a build without overflow checks: the shift amount
   * is taken modulo the width, so 16 shifts by 0. (With overflow checks
   * the shift by 16 panics instead.)
   */
  function BitAsWritten(i: bv16): bv16
    requires i <= BITS
  {
    Bit(i % BITS)
  }

  /** `add` behind the guard `i <= BITS` as written. */
  function AddAsWritten(bits: bv16, i: bv16): bv16
    requires i <= BITS
  {
    bits | BitAsWritten(i)
  }

  /** `contains` behind the same guard. */
  predicate ContainsAsWritten(bits: bv16, i: bv16)
    requires i <= BITS
  {
    bits & BitAsWritten(i) != 0
  }

  /**
   * The guard lets 16 through, and 16 lands on bit 0: a set that only ever
   * had 16 added claims to contain 0, and adding 16 to a set holding 0
   * changes nothing.
   */
  lemma SixteenAliasesZero()
    ensures ContainsAsWritten(AddAsWritten(0, 16), 0)
    ensures AddAsWritten(Bit(0), 16) == Bit(0)
  {
  }
}

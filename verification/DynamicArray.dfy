// The growable array of the runtime: an indexed store over a block that is moved
// to a larger one when an index does not fit.
module DynamicArrays {
  import opened Options
  import opened Words

  const GROWTH_FACTOR: int := 2
  const DEFAULT_SIZE: int := 8

  // ----- The indexed store -----

  // What has been stored, and how much room there is. The first `zeroed` elements
  // were zero to begin with.
  datatype Elements<T> = Elements(zeroed: int, length: int, capacity: int, written: map<int, T>)

  datatype Stored<T> = Stored(a: Elements<T>) | NegativeIndex | Overflow

  datatype Write<T> = Write(index: Int64, value: T)

  predicate Largest<T>(written: map<int, T>, length: int) {
    && (forall i :: i in written ==> 0 <= i < length)
    && (length != 0 ==> length - 1 in written)
  }

  predicate Sound<T>(a: Elements<T>) {
    && 0 < a.zeroed <= a.capacity < TWO_63
    && 0 <= a.length <= a.capacity
    && Largest(a.written, a.length)
  }

  function InitialCapacity(size: Int64): (r: Int64)
    ensures r > 0
  {
    if size > 0 then size else DEFAULT_SIZE
  }

  function Empty<T>(size: Int64): Elements<T> {
    Elements(InitialCapacity(size), 0, InitialCapacity(size), map[])
  }

  // The capacity that makes room for an index; None when it is no 64-bit integer.
  function Grown(capacity: int, index: int): Option<int>
    requires 0 < capacity <= index
  {
    var repeat := index / (capacity * GROWTH_FACTOR) + 1;
    var size := capacity * GROWTH_FACTOR * repeat;
    if capacity * GROWTH_FACTOR < TWO_63 && size < TWO_63 then Some(size) else None
  }

  function Capacity(capacity: int, index: int): Option<int>
    requires 0 < capacity
  {
    if capacity <= index then Grown(capacity, index) else Some(capacity)
  }

  function Set<T>(a: Elements<T>, index: Int64, value: T): Stored<T>
    requires Sound(a)
  {
    var capacity := Capacity(a.capacity, index);
    if capacity.None? then Overflow
    else if index < 0 then NegativeIndex
    else Stored(Elements(a.zeroed, if a.length <= index then index + 1 else a.length, capacity.value,
                         a.written[index := value]))
  }

  // ----- Growth -----

  // A new capacity has room for the index and is at least twice the old one, yet
  // less than three times the index or equal to it.
  lemma GrowthBounds(capacity: int, index: int)
    requires 0 < capacity <= index && Grown(capacity, index).Some?
    ensures var r := Grown(capacity, index).value;
      index < r <= index + 2 * capacity && 2 * capacity <= r <= 3 * index
    ensures Grown(capacity, index).value % (2 * capacity) == 0
  {
    DivisionBounds(index, 2 * capacity);
    var q := index / (2 * capacity) + 1;
    RemainderUnique(2 * capacity * q, 2 * capacity, q, 0);
  }

  // It overflows exactly when no multiple of twice the old capacity that is a 64-bit
  // integer has room.
  lemma GrowthOverflowsIff(capacity: int, index: int)
    requires 0 < capacity <= index
    ensures Grown(capacity, index).None? <==> forall q :: index < 2 * capacity * q ==> 2 * capacity * q >= TWO_63
  {
    DivisionBounds(index, 2 * capacity);
    var least := index / (2 * capacity) + 1;
    assert 2 * capacity * least >= 2 * capacity && 2 * capacity * (least - 1) <= index;
    forall q | index < 2 * capacity * q
      ensures 2 * capacity * q >= 2 * capacity * least
    {
      if q < least {
        MultipleBelow(2 * capacity, q, least - 1);
      } else {
        MultipleBelow(2 * capacity, least, q);
      }
    }
  }

  lemma MultipleBelow(d: int, p: int, q: int)
    requires d > 0 && p <= q
    ensures d * p <= d * q
  {
  }

  lemma DivisionBounds(n: int, d: int)
    requires 0 < d && 0 <= n
    ensures n < d * (n / d + 1) <= n + d && d <= d * (n / d + 1)
  {
    var q := n / d;
    assert n == d * q + n % d;
    assert d * (q + 1) == d * q + d;
    assert d * q >= 0;
  }

  // No index up to a third of the largest 64-bit integer can overflow the capacity.
  lemma SmallIndexFits(capacity: int, index: int)
    requires 0 < capacity <= index && 3 * index < TWO_63
    ensures Grown(capacity, index).Some?
  {
    DivisionBounds(index, 2 * capacity);
  }

  lemma SetIsSound<T>(a: Elements<T>, index: Int64, value: T)
    requires Sound(a) && Set(a, index, value).Stored?
    ensures Sound(Set(a, index, value).a)
  {
    if a.capacity <= index {
      GrowthBounds(a.capacity, index);
    }
  }

  // ----- Runs of stores -----

  // The state after a sequence of stores, and how many elements growing has copied.
  datatype Run<T> = Run(a: Elements<T>, copied: int) | Failed

  function Copied<T>(a: Elements<T>, index: Int64): int {
    if a.capacity <= index then a.capacity else 0
  }

  function Stores<T>(size: Int64, writes: seq<Write<T>>): (r: Run<T>)
    ensures r.Run? ==> Sound(r.a)
    decreases |writes|
  {
    if writes == [] then Run(Empty(size), 0)
    else
      var before := Stores(size, writes[..|writes| - 1]);
      var w := writes[|writes| - 1];
      if before.Failed? then Failed
      else
        match Set(before.a, w.index, w.value)
        case Stored(a) =>
          SetIsSound(before.a, w.index, w.value);
          Run(a, before.copied + Copied(before.a, w.index))
        case _ => Failed
  }

  function LastWrite<T>(writes: seq<Write<T>>, i: int): Option<T> {
    if writes == [] then None
    else
      var w := writes[|writes| - 1];
      if w.index == i then Some(w.value) else LastWrite(writes[..|writes| - 1], i)
  }

  // After any sequence of stores, across every growth, an index holds the last
  // value stored at it and the length is one more than the largest index stored.
  lemma {:induction false} HoldsLastWrites<T>(size: Int64, writes: seq<Write<T>>, i: int)
    requires Stores(size, writes).Run?
    ensures var a := Stores(size, writes).a;
      && (LastWrite(writes, i) == if i in a.written then Some(a.written[i]) else None)
      && (forall k :: 0 <= k < |writes| ==> 0 <= writes[k].index < a.length)
      && (writes != [] ==> exists k :: 0 <= k < |writes| && writes[k].index == a.length - 1)
    decreases |writes|
  {
    if writes != [] {
      var front := writes[..|writes| - 1];
      HoldsLastWrites(size, front, i);
      var a, w := Stores(size, front).a, writes[|writes| - 1];
      if a.length > w.index && front != [] {
        var k :| 0 <= k < |front| && front[k].index == a.length - 1;
        assert writes[k].index == a.length - 1;
      }
    }
  }

  // The room never exceeds the larger of the initial capacity and three times the
  // largest index stored, and all growing together has copied no more elements than
  // the room it made.
  lemma {:induction false} SpaceAndCopyingAreBounded<T>(size: Int64, writes: seq<Write<T>>)
    requires Stores(size, writes).Run?
    ensures var r := Stores(size, writes);
      && (r.a.capacity == InitialCapacity(size) || r.a.capacity <= 3 * (r.a.length - 1))
      && 0 <= r.copied <= r.a.capacity - InitialCapacity(size)
    decreases |writes|
  {
    if writes != [] {
      var front := writes[..|writes| - 1];
      SpaceAndCopyingAreBounded(size, front);
      var a, w := Stores(size, front).a, writes[|writes| - 1];
      if a.capacity <= w.index {
        GrowthBounds(a.capacity, w.index);
      }
    }
  }

  // Stores at non-negative indices below a third of the largest integer succeed.
  lemma {:induction false} SmallStoresSucceed<T>(size: Int64, writes: seq<Write<T>>)
    requires forall k :: 0 <= k < |writes| ==> 0 <= writes[k].index && 3 * writes[k].index < TWO_63
    ensures Stores(size, writes).Run?
    decreases |writes|
  {
    if writes != [] {
      var front := writes[..|writes| - 1];
      SmallStoresSucceed(size, front);
      var a, w := Stores(size, front).a, writes[|writes| - 1];
      assert w == writes[|writes| - 1];
      if a.capacity <= w.index {
        SmallIndexFits(a.capacity, w.index);
      }
    }
  }

  // ----- The array -----

  datatype Outcome = Done | Panic

  class DynamicBalArray<T(0)> {
    const zero: T
    ghost const zeroed: int
    var length: int
    var capacity: int
    var values: array<T>
    ghost var written: map<int, T>

    ghost function State(): Elements<T>
      reads this
    {
      Elements(zeroed, length, capacity, written)
    }

    ghost predicate Valid()
      reads this, values
    {
      && Sound(State())
      && values.Length == capacity
      && (forall i :: i in written ==> values[i] == written[i])
      && (forall i :: 0 <= i < zeroed && i !in written ==> values[i] == zero)
    }

    // An array of zeros; a size that is not positive stands for the default one.
    constructor (size: Int64, zero: T)
      ensures Valid() && State() == Empty(size) && this.zero == zero && fresh(values)
      ensures capacity == (if size > 0 then size else 8) && length == 0
    {
      var n := if size > 0 then size else DEFAULT_SIZE;
      this.zero := zero;
      zeroed, length, capacity := n, 0, n;
      values := new T[n](i => zero);
      written := map[];
    }

    // A larger block with the old elements first. The others are anything.
    method GrowArray(newCapacity: int)
      requires Valid() && capacity <= newCapacity < TWO_63
      modifies this`values, this`capacity
      ensures Valid() && fresh(values)
      ensures State() == old(State()).(capacity := newCapacity)
    {
      var moved := new T[newCapacity];
      forall i | 0 <= i < capacity {
        moved[i] := values[i];
      }
      values := moved;
      capacity := newCapacity;
    }

    // An index not below the length panics, and so does a negative one. Any other
    // element is the last value stored, or zero if it was there from the start.
    method GetElement(index: Int64) returns (r: Option<T>)
      requires Valid()
      ensures r.None? <==> index < 0 || length <= index
      ensures index in written ==> r == Some(written[index])
      ensures 0 <= index < length && index < zeroed && index !in written ==> r == Some(zero)
    {
      if length <= index {
        return None;
      }
      if index < 0 {
        return None;
      }
      return Some(values[index]);
    }

    // A store that does not panic leaves the state of the specification.
    method SetElement(index: Int64, value: T) returns (r: Outcome)
      requires Valid()
      modifies this, values
      ensures Valid() && (values == old(values) || fresh(values))
      ensures match Set(old(State()), index, value)
        case Stored(a) => r.Done? && State() == a
        case _ => r.Panic? && State() == old(State())
    {
      if capacity <= index {
        var doubled := capacity * GROWTH_FACTOR;
        if doubled >= TWO_63 {
          return Panic;
        }
        var repeat := index / doubled + 1;
        var newSize := doubled * repeat;
        if newSize >= TWO_63 {
          return Panic;
        }
        GrowthBounds(capacity, index);
        GrowArray(newSize);
      }
      if index < 0 {
        return Panic;
      }
      values[index] := value;
      written := written[index := value];
      if length <= index {
        length := index + 1;
      }
      return Done;
    }
  }
}

// The open-addressing table behind a Ballerina mapping, as a value: hashing,
// downward probing, writing, rehashing and merging. The class BalMap updates
// such a table in place and is specified by the functions below.
module HashTable {
  import opened Options
  import opened Words

  // The content of a string. Two string objects are equal when these are.
  type Key = seq<Byte>

  datatype Entry = Entry(key: Key, value: Int64)

  // A slot whose key pointer is null is None.
  type Slot = Option<Entry>

  datatype Table = Table(slots: seq<Slot>, used: nat, capacity: nat)

  // A call either returns or reaches one of the two aborts.
  datatype Outcome = Ok(table: Table) | CapacityOverflow | Shrinking

  const HASH_TABLE_MIN_SIZE: nat := 8
  const INITIAL_SIZE: nat := 8

  // 0.6f is 10066330 / 2^24 in binary32; times a power of two it is exact, and
  // the conversion to size_t drops the fraction.
  const LOAD_NUMERATOR: nat := 10066330
  const LOAD_DENOMINATOR: nat := 0x100_0000

  function Capacity(n: nat): nat {
    n * LOAD_NUMERATOR / LOAD_DENOMINATOR
  }

  ghost predicate TableSize(n: nat) {
    exists e: nat :: 3 <= e <= 63 && n == Pow2(e)
  }

  // ----- Hashing and probing -----

  // DJB2 without any reduction.
  function HashSum(s: Key): nat {
    if s == [] then 5381 else HashSum(s[..|s| - 1]) * 33 + s[|s| - 1]
  }

  function Hash(s: Key): Word {
    HashSum(s) % TWO_64
  }

  // DJB2 as a sum: the start value and each character, weighted by the power of 33
  // for its distance from the end.
  function Power33(k: nat): nat {
    if k == 0 then 1 else 33 * Power33(k - 1)
  }

  function WeightedSum(s: Key): nat {
    if s == [] then 0 else s[0] * Power33(|s| - 1) + WeightedSum(s[1..])
  }

  lemma ScaleTerm(a: int, b: int)
    ensures a * (33 * b) == 33 * (a * b)
  {
  }

  lemma {:induction false} WeightedSumOfMore(s: Key, c: Byte)
    ensures WeightedSum(s + [c]) == 33 * WeightedSum(s) + c
    decreases |s|
  {
    if s != [] {
      WeightedSumOfMore(s[1..], c);
      assert (s + [c])[1..] == s[1..] + [c];
      ScaleTerm(s[0], Power33(|s| - 1));
    } else {
      assert s + [c] == [c];
    }
  }

  lemma {:induction false} HashSumIsWeighted(s: Key)
    ensures HashSum(s) == 5381 * Power33(|s|) + WeightedSum(s)
    decreases |s|
  {
    if s != [] {
      var front, c := s[..|s| - 1], s[|s| - 1];
      HashSumIsWeighted(front);
      WeightedSumOfMore(front, c);
      assert front + [c] == s;
    }
  }

  function Home(k: Key, n: nat): (h: nat)
    requires n > 0
    ensures h < n
  {
    BitAnd(Hash(k), n - 1)
  }

  // The slot reached from `home` after d steps down, wrapping below zero.
  function At(home: nat, d: nat, n: nat): (i: nat)
    requires home < n && d < n
    ensures i < n && Distance(home, i, n) == d
  {
    if d <= home then home - d else home - d + n
  }

  function Distance(home: nat, i: nat, n: nat): (d: nat)
    requires home < n && i < n
    ensures d < n
  {
    if i <= home then home - i else home - i + n
  }

  predicate Holds(slot: Slot, k: Key) {
    slot.Some? && slot.value.key == k
  }

  // The number of steps from the home slot of k to the first slot, at distance d
  // or more, that is empty or holds k; |slots| when there is none.
  function Probe(slots: seq<Slot>, k: Key, d: nat): (r: nat)
    requires d <= |slots| && |slots| > 0
    ensures d <= r <= |slots|
    ensures forall e :: d <= e < r ==> Passed(slots, k, e)
    ensures r < |slots| ==> !Passed(slots, k, r)
    decreases |slots| - d
  {
    if d == |slots| || !Passed(slots, k, d) then d else Probe(slots, k, d + 1)
  }

  predicate Passed(slots: seq<Slot>, k: Key, d: nat)
    requires d < |slots|
  {
    var slot := slots[At(Home(k, |slots|), d, |slots|)];
    slot.Some? && slot.value.key != k
  }

  // ----- The operations -----

  function Lookup(t: Table, k: Key): Option<Int64>
    requires |t.slots| > 0
  {
    var n := |t.slots|;
    var d := Probe(t.slots, k, 0);
    if d == n then None
    else
      var slot := t.slots[At(Home(k, n), d, n)];
      if slot.Some? then Some(slot.value.value) else None
  }

  // The write of an insertion, before any growth. A table without a free slot,
  // which no reachable table is, stays as it is.
  function Put(t: Table, k: Key, v: Int64): (u: Table)
    requires |t.slots| > 0
    ensures |u.slots| == |t.slots| && u.capacity == t.capacity && t.used <= u.used <= t.used + 1
  {
    var n := |t.slots|;
    var d := Probe(t.slots, k, 0);
    if d == n then t
    else
      var i := At(Home(k, n), d, n);
      t.(slots := t.slots[i := Some(Entry(k, v))],
         used := if t.slots[i].Some? then t.used else t.used + 1)
  }

  function PutAll(t: Table, slots: seq<Slot>): (u: Table)
    requires |t.slots| > 0
    ensures |u.slots| == |t.slots| && u.capacity == t.capacity
  {
    if slots == [] then t
    else
      var u := PutAll(t, slots[..|slots| - 1]);
      var last := slots[|slots| - 1];
      if last.Some? then Put(u, last.value.key, last.value.value) else u
  }

  function Empty(n: nat): Table {
    Table(seq(n, _ => None), 0, Capacity(n))
  }

  // Doubles n until its capacity suffices; None when n would wrap to zero.
  function SizeFor(n: nat, minCapacity: nat): (r: Option<nat>)
    requires n > 0
    ensures r.Some? ==> r.value >= n
    decreases TWO_64 - n
  {
    if Capacity(n) >= minCapacity then Some(n)
    else if 2 * n >= TWO_64 then None
    else SizeFor(2 * n, minCapacity)
  }

  function Init(minCapacity: nat): Outcome {
    var n := SizeFor(HASH_TABLE_MIN_SIZE, minCapacity);
    if n.Some? then Ok(Empty(n.value)) else CapacityOverflow
  }

  function Grow(t: Table, newSize: nat): Outcome {
    if newSize <= t.used then Shrinking
    else
      var empty := Init(newSize);
      if empty.Ok? && |empty.table.slots| > 0 then Ok(PutAll(empty.table, t.slots)) else empty
  }

  predicate Full(t: Table) {
    t.used >= t.capacity
  }

  function Insert(t: Table, k: Key, v: Int64): Outcome
    requires |t.slots| > 0
  {
    var u := Put(t, k, v);
    if u.used > t.used && Full(u) then Grow(u, u.used + 1) else Ok(u)
  }

  function InsertAll(t: Table, slots: seq<Slot>): Outcome
    requires |t.slots| > 0
  {
    if slots == [] then Ok(t)
    else
      var rest := InsertAll(t, slots[..|slots| - 1]);
      var last := slots[|slots| - 1];
      if rest.Ok? && |rest.table.slots| > 0 && last.Some?
      then Insert(rest.table, last.value.key, last.value.value)
      else rest
  }

  // Merging the slots of src below `bound` into t: the runtime passes the number
  // of used entries of src for `bound`.
  function SpreadUpTo(t: Table, src: Table, bound: nat): Outcome
    requires bound <= |src.slots|
  {
    var grown := Grow(t, src.used + t.used);
    if grown.Ok? && |grown.table.slots| > 0 then InsertAll(grown.table, src.slots[..bound]) else grown
  }

  function Spread(t: Table, src: Table): Outcome {
    SpreadUpTo(t, src, if src.used <= |src.slots| then src.used else |src.slots|)
  }

  // ----- What a table means -----

  // The finite map in the slots, later slots winning.
  function Contents(slots: seq<Slot>): map<Key, Int64> {
    if slots == [] then map[]
    else
      var rest := Contents(slots[..|slots| - 1]);
      var last := slots[|slots| - 1];
      if last.Some? then rest[last.value.key := last.value.value] else rest
  }

  function Count(slots: seq<Slot>): (c: nat)
    ensures c <= |slots|
  {
    if slots == [] then 0
    else Count(slots[..|slots| - 1]) + if slots[|slots| - 1].Some? then 1 else 0
  }

  predicate Apart(slots: seq<Slot>, i: nat, j: nat)
    requires i < |slots| && j < |slots|
  {
    slots[i].Some? && slots[j].Some? ==> slots[i].value.key != slots[j].value.key
  }

  predicate Distinct(slots: seq<Slot>) {
    forall i, j :: 0 <= i < j < |slots| ==> Apart(slots, i, j)
  }

  lemma DistinctPrefix(slots: seq<Slot>, n: nat)
    requires Distinct(slots) && n <= |slots|
    ensures Distinct(slots[..n])
  {
    forall i: nat, j: nat | i < j < n
      ensures Apart(slots[..n], i, j)
    {
      assert Apart(slots, i, j);
    }
  }

  // A key is in one slot only.
  lemma OneSlot(slots: seq<Slot>, k: Key, i: nat, j: nat)
    requires Distinct(slots) && i < |slots| && j < |slots| && Holds(slots[i], k) && Holds(slots[j], k)
    ensures i == j
  {
    assert i < j ==> Apart(slots, i, j);
    assert j < i ==> Apart(slots, j, i);
  }

  // Every slot on the way down from the home of the key in slot j to j is occupied.
  predicate Chained(slots: seq<Slot>, j: nat)
    requires j < |slots|
  {
    slots[j].Some? ==>
      var h := Home(slots[j].value.key, |slots|);
      forall d :: 0 <= d < Distance(h, j, |slots|) ==> slots[At(h, d, |slots|)].Some?
  }

  ghost predicate Probed(t: Table) {
    && TableSize(|t.slots|)
    && t.capacity == Capacity(|t.slots|)
    && t.used == Count(t.slots) <= t.capacity
    && Distinct(t.slots)
    && forall j :: 0 <= j < |t.slots| ==> Chained(t.slots, j)
  }

  // The invariant of every reachable table.
  ghost predicate Valid(t: Table) {
    Probed(t) && t.used < t.capacity
  }

  // ----- Where the probe goes -----

  // A key starts at its hash modulo the number of slots, and goes down cyclically.
  lemma HomeIsRemainder(k: Key, n: nat)
    requires TableSize(n)
    ensures n > 0 && Home(k, n) == Hash(k) % n
  {
    var e: nat :| 3 <= e <= 63 && n == Pow2(e);
    MaskIsRemainder(Hash(k), e);
  }

  lemma ProbeGoesDown(home: nat, d: nat, n: nat)
    requires home < n && d < n
    ensures At(home, d, n) == (home - d) % n
  {
    if d <= home {
      RemainderUnique(home - d, n, 0, home - d);
    } else {
      RemainderUnique(home - d, n, -1, home - d + n);
    }
  }

  // ----- Capacity arithmetic -----

  // The capacity is three fifths of the size, rounded down; from 2^23 slots on the
  // excess of 0.6f over three fifths counts.
  lemma CapacityIsThreeFifths(n: nat)
    ensures Capacity(n) == (3 * n + n / 0x80_0000) / 5
    ensures n < 0x80_0000 ==> Capacity(n) == 3 * n / 5
  {
    var a, b := n / 0x80_0000, n % 0x80_0000;
    var q, r := (3 * n + a) / 5, (3 * n + a) % 5;
    assert n == 0x80_0000 * a + b;
    assert 5 * (n * LOAD_NUMERATOR) == (5 * q + r) * LOAD_DENOMINATOR + 2 * b;
    assert n * LOAD_NUMERATOR == q * LOAD_DENOMINATOR + (n * LOAD_NUMERATOR - q * LOAD_DENOMINATOR);
    RemainderUnique(n * LOAD_NUMERATOR, LOAD_DENOMINATOR, q, n * LOAD_NUMERATOR - q * LOAD_DENOMINATOR);
  }

  lemma SizeFacts(n: nat)
    requires TableSize(n)
    ensures 8 <= n <= TWO_63
    ensures 1 <= Capacity(n) < n
    ensures n < TWO_63 <==> TableSize(2 * n)
    ensures n == TWO_63 || n < TWO_63
    ensures Capacity(2 * n) >= 2 * Capacity(n)
  {
    var e: nat :| 3 <= e <= 63 && n == Pow2(e);
    Pow2Values();
    Pow2Monotone(3, e);
    Pow2Monotone(e, 63);
    if e < 63 {
      assert 2 * n == Pow2(e + 1);
    } else {
      forall f: nat | 3 <= f <= 63
        ensures 2 * n != Pow2(f)
      {
        Pow2Monotone(f, 63);
      }
    }
  }

  lemma CapacityMonotone(m: nat, n: nat)
    ensures m <= n ==> Capacity(m) <= Capacity(n)
  {
  }

  lemma SmallerSize(m: nat, n: nat)
    requires TableSize(m) && TableSize(n) && m < n
    ensures 2 * m <= n
  {
    var e: nat :| 3 <= e <= 63 && m == Pow2(e);
    var f: nat :| 3 <= f <= 63 && n == Pow2(f);
    if f <= e {
      Pow2Monotone(f, e);
    } else {
      Pow2Monotone(e, f);
    }
  }

  // No size from lo up to hi has the capacity asked for.
  ghost predicate TooSmall(lo: nat, hi: nat, minCapacity: nat) {
    forall m: nat :: TableSize(m) && lo <= m < hi ==> Capacity(m) < minCapacity
  }

  // The search finds the least admissible size, and fails exactly when none exists.
  lemma {:induction false} SizeForIsLeast(n: nat, minCapacity: nat)
    requires TableSize(n)
    ensures var r := SizeFor(n, minCapacity);
      if r.Some? then
        TableSize(r.value) && Capacity(r.value) >= minCapacity && TooSmall(n, r.value, minCapacity)
      else TooSmall(n, TWO_64, minCapacity)
    decreases TWO_64 - n
  {
    SizeFacts(n);
    if Capacity(n) < minCapacity {
      if 2 * n < TWO_64 {
        SizeForIsLeast(2 * n, minCapacity);
        var r := SizeFor(2 * n, minCapacity);
        TooSmallExtends(n, if r.Some? then r.value else TWO_64, minCapacity);
      } else {
        forall m: nat | TableSize(m) && n <= m
          ensures m == n
        {
          SizeFacts(m);
        }
      }
    }
  }

  lemma TooSmallExtends(n: nat, hi: nat, minCapacity: nat)
    requires TableSize(n) && Capacity(n) < minCapacity && TooSmall(2 * n, hi, minCapacity)
    ensures TooSmall(n, hi, minCapacity)
  {
    forall m: nat | TableSize(m) && n <= m < hi
      ensures Capacity(m) < minCapacity
    {
      if m > n {
        SmallerSize(n, m);
      }
    }
  }

  lemma MinSize()
    ensures TableSize(HASH_TABLE_MIN_SIZE)
  {
    assert Pow2(3) == 8 by { Pow2Values(); }
  }

  // bal_map_init_hashtable: the least power of two from 8 up whose capacity
  // suffices, always with 1 <= capacity < size; an abort exactly when even 2^63
  // slots are too few.
  lemma InitIsLeast(minCapacity: nat)
    ensures var r := Init(minCapacity);
      if r.Ok? then
        && Valid(r.table) && r.table.used == 0 && Contents(r.table.slots) == map[]
        && r.table.capacity >= minCapacity && 1 <= r.table.capacity < |r.table.slots|
        && TooSmall(0, |r.table.slots|, minCapacity)
      else
        r.CapacityOverflow? && TooSmall(0, TWO_64, minCapacity)
    ensures Init(minCapacity).CapacityOverflow? <==> minCapacity > Capacity(TWO_63)
  {
    MinSize();
    SizeForIsLeast(HASH_TABLE_MIN_SIZE, minCapacity);
    NothingBelowMin(minCapacity);
    var r := Init(minCapacity);
    Pow2Values();
    assert TableSize(TWO_63);
    if r.Ok? {
      var n := |r.table.slots|;
      SizeFacts(n);
      EmptyIsValid(n);
      CapacityMonotone(n, TWO_63);
    } else {
      assert HASH_TABLE_MIN_SIZE <= TWO_63 < TWO_64;
    }
  }

  lemma NothingBelowMin(minCapacity: nat)
    ensures TooSmall(0, HASH_TABLE_MIN_SIZE, minCapacity)
  {
    forall m: nat | TableSize(m)
      ensures m >= HASH_TABLE_MIN_SIZE
    {
      SizeFacts(m);
    }
  }

  lemma EmptyIsValid(n: nat)
    requires TableSize(n)
    ensures Valid(Empty(n)) && Contents(Empty(n).slots) == map[]
  {
    SizeFacts(n);
    NoneMeansNothing(Empty(n).slots);
  }

  lemma {:induction false} NoneMeansNothing(slots: seq<Slot>)
    requires forall i :: 0 <= i < |slots| ==> slots[i].None?
    ensures Count(slots) == 0 && Contents(slots) == map[]
  {
    if slots != [] {
      NoneMeansNothing(slots[..|slots| - 1]);
    }
  }

  // ----- Counting and contents -----

  lemma {:induction false} CountUpdate(slots: seq<Slot>, i: nat, e: Entry)
    requires i < |slots|
    ensures Count(slots[i := Some(e)]) == Count(slots) + if slots[i].Some? then 0 else 1
  {
    var last := |slots| - 1;
    var after := slots[i := Some(e)];
    if i == last {
      assert after[..last] == slots[..last];
    } else {
      assert after[..last] == slots[..last][i := Some(e)];
      CountUpdate(slots[..last], i, e);
    }
  }

  lemma {:induction false} FreeSlot(slots: seq<Slot>) returns (i: nat)
    requires Count(slots) < |slots|
    ensures i < |slots| && slots[i].None?
  {
    if slots[|slots| - 1].None? {
      i := |slots| - 1;
    } else {
      i := FreeSlot(slots[..|slots| - 1]);
    }
  }

  lemma {:induction false} SlotInContents(slots: seq<Slot>, j: nat)
    requires Distinct(slots) && j < |slots| && slots[j].Some?
    ensures slots[j].value.key in Contents(slots)
    ensures Contents(slots)[slots[j].value.key] == slots[j].value.value
  {
    if j < |slots| - 1 {
      var front := slots[..|slots| - 1];
      DistinctPrefix(slots, |slots| - 1);
      SlotInContents(front, j);
      assert front[j] == slots[j];
      assert Apart(slots, j, |slots| - 1);
    }
  }

  lemma {:induction false} KeyHasSlot(slots: seq<Slot>, k: Key) returns (j: nat)
    requires k in Contents(slots)
    ensures j < |slots| && Holds(slots[j], k) && slots[j].value.value == Contents(slots)[k]
  {
    var last := slots[|slots| - 1];
    if Holds(last, k) {
      j := |slots| - 1;
    } else {
      j := KeyHasSlot(slots[..|slots| - 1], k);
    }
  }

  lemma NoSlotNoKey(slots: seq<Slot>, k: Key)
    requires forall j :: 0 <= j < |slots| ==> !Holds(slots[j], k)
    ensures k !in Contents(slots)
  {
    if k in Contents(slots) {
      var j := KeyHasSlot(slots, k);
    }
  }

  lemma {:induction false} CountIsSize(slots: seq<Slot>)
    requires Distinct(slots)
    ensures |Contents(slots)| == Count(slots)
  {
    if slots != [] {
      var front, last := slots[..|slots| - 1], slots[|slots| - 1];
      DistinctPrefix(slots, |slots| - 1);
      CountIsSize(front);
      if last.Some? {
        forall j | 0 <= j < |front|
          ensures !Holds(front[j], last.value.key)
        {
          assert Apart(slots, j, |slots| - 1);
        }
        NoSlotNoKey(front, last.value.key);
      }
    }
  }

  lemma ContentsUpdate(slots: seq<Slot>, i: nat, k: Key, v: Int64)
    requires i < |slots| && Distinct(slots) && Distinct(slots[i := Some(Entry(k, v))])
    requires slots[i].None? || slots[i].value.key == k
    ensures Contents(slots[i := Some(Entry(k, v))]) == Contents(slots)[k := v]
  {
    var after := slots[i := Some(Entry(k, v))];
    var c, c' := Contents(slots), Contents(after);
    SlotInContents(after, i);
    forall q | q in c'
      ensures q in c[k := v] && c[k := v][q] == c'[q]
    {
      var j := KeyHasSlot(after, q);
      if j != i {
        SlotInContents(slots, j);
      }
    }
    forall q | q in c[k := v]
      ensures q in c'
    {
      if q != k {
        var j := KeyHasSlot(slots, q);
        assert j != i && after[j] == slots[j];
        SlotInContents(after, j);
      }
    }
  }

  // ----- Probing finds the key or a free slot -----

  lemma ProbeStops(slots: seq<Slot>, k: Key, i: nat)
    requires i < |slots| && slots[i].None?
    ensures Probe(slots, k, 0) <= Distance(Home(k, |slots|), i, |slots|)
  {
    assert !Passed(slots, k, Distance(Home(k, |slots|), i, |slots|));
  }

  lemma ProbeFinds(slots: seq<Slot>, k: Key, j: nat)
    requires j < |slots| && Holds(slots[j], k) && Chained(slots, j) && Distinct(slots)
    ensures Probe(slots, k, 0) == Distance(Home(k, |slots|), j, |slots|)
  {
    var n := |slots|;
    var h := Home(k, n);
    var d, dj := Probe(slots, k, 0), Distance(h, j, n);
    assert !Passed(slots, k, dj);
    if d < dj {
      OneSlot(slots, k, At(h, d, n), j);
    }
  }

  // A lookup answers from the finite map, present and absent keys alike.
  lemma LookupRefines(t: Table, k: Key)
    requires Valid(t)
    ensures Lookup(t, k) == if k in Contents(t.slots) then Some(Contents(t.slots)[k]) else None
  {
    SizeFacts(|t.slots|);
    var n := |t.slots|;
    var d := Probe(t.slots, k, 0);
    if k in Contents(t.slots) {
      var j := KeyHasSlot(t.slots, k);
      ProbeFinds(t.slots, k, j);
    } else if d < n {
      var i := At(Home(k, n), d, n);
      if t.slots[i].Some? {
        SlotInContents(t.slots, i);
      }
    }
  }

  // Both endless loops stop: some slot within |slots| steps is free.
  lemma ProbeTerminates(t: Table, k: Key)
    requires Probed(t)
    ensures |t.slots| > 0 && Probe(t.slots, k, 0) < |t.slots|
  {
    SizeFacts(|t.slots|);
    var i := FreeSlot(t.slots);
    ProbeStops(t.slots, k, i);
  }

  // ----- Writing -----

  lemma PutRefines(t: Table, k: Key, v: Int64)
    requires Valid(t)
    ensures |t.slots| > 0
    ensures var u := Put(t, k, v);
      && Probed(u)
      && Contents(u.slots) == Contents(t.slots)[k := v]
      && u.used == t.used + if k in Contents(t.slots) then 0 else 1
  {
    ProbeTerminates(t, k);
    var n := |t.slots|;
    var d := Probe(t.slots, k, 0);
    var h := Home(k, n);
    var i := At(h, d, n);
    var u := Put(t, k, v);
    CountUpdate(t.slots, i, Entry(k, v));
    PutKeepsDistinct(t, k, v, i);
    PutKeepsChains(t, k, v, i);
    ContentsUpdate(t.slots, i, k, v);
    if t.slots[i].Some? {
      SlotInContents(t.slots, i);
    }
  }

  lemma PutKeepsDistinct(t: Table, k: Key, v: Int64, i: nat)
    requires Probed(t) && |t.slots| > 0
    requires Probe(t.slots, k, 0) < |t.slots| && i == At(Home(k, |t.slots|), Probe(t.slots, k, 0), |t.slots|)
    ensures Distinct(t.slots[i := Some(Entry(k, v))])
    ensures t.slots[i].None? ==> k !in Contents(t.slots)
  {
    var slots := t.slots[i := Some(Entry(k, v))];
    forall j | 0 <= j < |t.slots| && Holds(t.slots[j], k)
      ensures j == i
    {
      ProbeFinds(t.slots, k, j);
    }
    forall a: nat, b: nat | a < b < |slots|
      ensures Apart(slots, a, b)
    {
      assert Apart(t.slots, a, b);
    }
    if t.slots[i].None? && k in Contents(t.slots) {
      var j := KeyHasSlot(t.slots, k);
    }
  }

  lemma PutKeepsChains(t: Table, k: Key, v: Int64, i: nat)
    requires Probed(t) && |t.slots| > 0
    requires Probe(t.slots, k, 0) < |t.slots| && i == At(Home(k, |t.slots|), Probe(t.slots, k, 0), |t.slots|)
    ensures var slots := t.slots[i := Some(Entry(k, v))];
      forall j :: 0 <= j < |slots| ==> Chained(slots, j)
  {
    var n := |t.slots|;
    var slots := t.slots[i := Some(Entry(k, v))];
    var h := Home(k, n);
    forall j | 0 <= j < n
      ensures Chained(slots, j)
    {
      if j == i {
        forall d | 0 <= d < Distance(h, i, n)
          ensures slots[At(h, d, n)].Some?
        {
          assert Passed(t.slots, k, d);
        }
      } else {
        assert Chained(t.slots, j);
      }
    }
  }

  // Writing every entry of `slots` into a table with room for all of them.
  lemma {:induction false} PutAllRefines(t: Table, slots: seq<Slot>)
    requires Valid(t) && t.used + Count(slots) < t.capacity
    ensures |t.slots| > 0
    ensures var u := PutAll(t, slots);
      && Valid(u)
      && Contents(u.slots) == Contents(t.slots) + Contents(slots)
      && u.used <= t.used + Count(slots)
  {
    SizeFacts(|t.slots|);
    if slots != [] {
      PutAllRefines(t, slots[..|slots| - 1]);
      var u := PutAll(t, slots[..|slots| - 1]);
      var last := slots[|slots| - 1];
      if last.Some? {
        PutRefines(u, last.value.key, last.value.value);
      }
    }
  }

  // Growing keeps the finite map, rebuilds the invariant for the new mask, leaves
  // room for newSize entries, and aborts in exactly two cases.
  lemma GrowRefines(t: Table, newSize: nat)
    requires Probed(t)
    ensures var r := Grow(t, newSize);
      && (r.Shrinking? <==> newSize <= t.used)
      && (r.CapacityOverflow? <==> t.used < newSize && newSize > Capacity(TWO_63))
      && (r.Ok? ==>
            && Valid(r.table) && Contents(r.table.slots) == Contents(t.slots)
            && r.table.used == t.used && r.table.capacity >= newSize
            && TooSmall(0, |r.table.slots|, newSize))
  {
    InitIsLeast(newSize);
    var empty := Init(newSize);
    if newSize > t.used && empty.Ok? {
      PutAllRefines(empty.table, t.slots);
      var u := PutAll(empty.table, t.slots);
      CountIsSize(t.slots);
      CountIsSize(u.slots);
      assert Contents(u.slots) == Contents(t.slots);
    }
  }

  // ----- Insertion -----

  // An insertion is the update of a finite map. It never reaches the shrinking
  // abort, and reaches the overflow abort only when a full table already has 2^63 slots.
  lemma InsertRefines(t: Table, k: Key, v: Int64)
    requires Valid(t)
    ensures |t.slots| > 0
    ensures var r := Insert(t, k, v);
      && !r.Shrinking?
      && (r.CapacityOverflow? <==>
            k !in Contents(t.slots) && t.used + 1 == t.capacity && |t.slots| == TWO_63)
      && (r.Ok? ==> Valid(r.table) && Contents(r.table.slots) == Contents(t.slots)[k := v])
  {
    hide Capacity, Init;
    PutRefines(t, k, v);
    SizeFacts(|t.slots|);
    var u := Put(t, k, v);
    GrowRefines(u, u.used + 1);
    if u.used > t.used && Full(u) {
      InsertGrowthDoubles(t, k, v);
    }
  }

  // Growth set off by an insertion doubles the number of slots.
  lemma InsertGrowthDoubles(t: Table, k: Key, v: Int64)
    requires Valid(t) && |t.slots| > 0
    requires Put(t, k, v).used == t.capacity
    ensures var r := Grow(Put(t, k, v), t.capacity + 1);
      if |t.slots| < TWO_63 then r.Ok? && |r.table.slots| == 2 * |t.slots| else r.CapacityOverflow?
  {
    hide Put, Contents, Chained;
    var n := |t.slots|;
    var u := Put(t, k, v);
    PutRefines(t, k, v);
    GrowRefines(u, t.capacity + 1);
    SizeFacts(n);
    if n < TWO_63 {
      SizeFacts(2 * n);
      CapacityMonotone(2 * n, TWO_63);
      var r := Grow(u, t.capacity + 1);
      var m := |r.table.slots|;
      CapacityMonotone(m, n);
      SmallerSize(n, m);
    }
  }

  // Only the largest table has the largest capacity.
  lemma LargestCapacity(n: nat)
    requires TableSize(n)
    ensures Capacity(n) <= Capacity(TWO_63)
    ensures Capacity(n) == Capacity(TWO_63) <==> n == TWO_63
  {
    SizeFacts(n);
    CapacityMonotone(n, TWO_63);
    if n < TWO_63 {
      SizeFacts(2 * n);
      CapacityMonotone(2 * n, TWO_63);
    }
  }

  // A valid table holds as many keys as its finite map, fewer than the largest
  // capacity.
  lemma UsedIsSize(t: Table)
    requires Valid(t)
    ensures |Contents(t.slots)| == t.used < Capacity(TWO_63)
  {
    CountIsSize(t.slots);
    LargestCapacity(|t.slots|);
  }

  lemma UpdateSize(c: map<Key, Int64>, k: Key, v: Int64)
    ensures |c[k := v]| == |c| + if k in c then 0 else 1
  {
    assert c[k := v].Keys == c.Keys + {k};
    assert |c| == |c.Keys| && |c[k := v]| == |c[k := v].Keys|;
  }

  // In terms of the finite map: an insertion overflows exactly when the map it
  // should leave has as many keys as the largest capacity.
  lemma InsertOverflowsIff(t: Table, k: Key, v: Int64)
    requires Valid(t)
    ensures |t.slots| > 0
    ensures Insert(t, k, v).CapacityOverflow? <==> |Contents(t.slots)[k := v]| >= Capacity(TWO_63)
  {
    hide Insert;
    InsertRefines(t, k, v);
    UsedIsSize(t);
    UpdateSize(Contents(t.slots), k, v);
    LargestCapacity(|t.slots|);
  }

  // Inserting a range of slots one by one is the override of the map by them. It
  // overflows exactly when that override has as many keys as the largest capacity.
  lemma {:induction false} InsertAllRefines(t: Table, slots: seq<Slot>)
    requires Valid(t)
    ensures |t.slots| > 0
    ensures var r := InsertAll(t, slots);
      && !r.Shrinking?
      && (r.CapacityOverflow? <==> |Contents(t.slots) + Contents(slots)| >= Capacity(TWO_63))
      && (r.Ok? ==> Valid(r.table) && Contents(r.table.slots) == Contents(t.slots) + Contents(slots))
  {
    hide Insert, Capacity;
    SizeFacts(|t.slots|);
    if slots == [] {
      UsedIsSize(t);
      assert Contents(t.slots) + Contents(slots) == Contents(t.slots);
    } else {
      var front, last := slots[..|slots| - 1], slots[|slots| - 1];
      InsertAllRefines(t, front);
      var r := InsertAll(t, front);
      var c := Contents(t.slots) + Contents(front);
      if last.Some? {
        var k, v := last.value.key, last.value.value;
        assert Contents(t.slots) + Contents(slots) == c[k := v];
        UpdateSize(c, k, v);
        if r.Ok? {
          InsertRefines(r.table, k, v);
          InsertOverflowsIff(r.table, k, v);
        }
      }
    }
  }
}

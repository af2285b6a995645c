// The mapping object of the C runtime, updated in place.
module BalMaps {
  import opened Options
  import opened Words
  import opened HashTable
  import HashTableRuns

  // How a runtime call ends. The aborts stop the program.
  datatype Status = Returned | AbortCapacityOverflow | AbortShrinking

  function StatusOf(o: Outcome): Status {
    match o
    case Ok(_) => Returned
    case CapacityOverflow => AbortCapacityOverflow
    case Shrinking => AbortShrinking
  }

  lemma ReduceStep(a: nat, c: nat)
    ensures (a % TWO_64 * 33 + c) % TWO_64 == (a * 33 + c) % TWO_64
  {
    var q, r := a / TWO_64, a % TWO_64;
    var s := r * 33 + c;
    assert a * 33 + c == (33 * q + s / TWO_64) * TWO_64 + s % TWO_64;
    RemainderUnique(a * 33 + c, TWO_64, 33 * q + s / TWO_64, s % TWO_64);
  }

  // The hash loop reduces at every character what HashSum leaves unreduced.
  method StringHash(s: Key) returns (hash: Word)
    ensures hash == Hash(s)
    ensures hash == (5381 * Power33(|s|) + WeightedSum(s)) % TWO_64
  {
    hash := 5381;
    var p := 0;
    while p < |s|
      invariant p <= |s| && hash == HashSum(s[..p]) % TWO_64
    {
      assert s[..p + 1][..p] == s[..p];
      ReduceStep(HashSum(s[..p]), s[p]);
      hash := (hash * 33 + s[p]) % TWO_64;
      p := p + 1;
    }
    assert s[..p] == s;
    HashSumIsWeighted(s);
  }

  // Shifting the size left by one: zero exactly for the largest size.
  lemma DoubleSize(n: nat)
    requires TableSize(n)
    ensures if 2 * n % TWO_64 == 0 then 2 * n >= TWO_64
      else 2 * n % TWO_64 == 2 * n && TableSize(2 * n) && 2 * n < TWO_64
  {
    SizeFacts(n);
    hide TableSize, Capacity;
    if n < TWO_63 {
      assert 0 < 2 * n < TWO_64;
    } else {
      assert 2 * n == TWO_64;
    }
  }

  // Re-inserting one entry while growing: it fits, so it does not grow in turn.
  lemma RehashStep(empty: Table, slots: seq<Slot>, i: nat, used: nat)
    requires Valid(empty) && empty.used == 0 && i < |slots| && Count(slots) <= used < empty.capacity
    ensures |empty.slots| > 0
    ensures var t := PutAll(empty, slots[..i]);
      if slots[i].None? then PutAll(empty, slots[..i + 1]) == t
      else
        && t.used + 1 < t.capacity
        && Insert(t, slots[i].value.key, slots[i].value.value) == Ok(PutAll(empty, slots[..i + 1]))
  {
    assert slots[..i + 1][..i] == slots[..i];
    CountPrefix(slots, i);
    CountPrefix(slots, i + 1);
    PutAllRefines(empty, slots[..i]);
    if slots[i].Some? {
      assert Count(slots[..i + 1]) == Count(slots[..i]) + 1;
      PutRefines(PutAll(empty, slots[..i]), slots[i].value.key, slots[i].value.value);
    }
  }

  // Where an insertion writes, and what the written table is like.
  lemma InsertPlan(t: Table, k: Key, v: Int64) returns (target: nat)
    requires Valid(t)
    ensures target < |t.slots| && target == Probe(t.slots, k, 0)
    ensures forall d :: 0 <= d < target ==> Passed(t.slots, k, d)
    ensures !Passed(t.slots, k, target)
    ensures var u := Put(t, k, v);
      && Probed(u)
      && (!Full(u) ==> Valid(u))
      && (u.used == t.used ==> !Full(u))
      && (u.used == t.used <==> t.slots[At(Home(k, |t.slots|), target, |t.slots|)].Some?)
      && (u.used > t.used ==> k !in Contents(t.slots))
  {
    ProbeTerminates(t, k);
    PutRefines(t, k, v);
    target := Probe(t.slots, k, 0);
  }

  // Inserting what a table already holds leaves it as it is.
  lemma InsertSame(t: Table, k: Key, v: Int64)
    requires Valid(t) && k in Contents(t.slots) && Contents(t.slots)[k] == v
    ensures |t.slots| > 0 && Insert(t, k, v) == Ok(t)
  {
    SizeFacts(|t.slots|);
    var j := KeyHasSlot(t.slots, k);
    ProbeFinds(t.slots, k, j);
    assert t.slots[j := Some(Entry(k, v))] == t.slots;
  }

  lemma {:induction false} InsertAllSame(t: Table, slots: seq<Slot>)
    requires Valid(t)
    requires forall i :: 0 <= i < |slots| && slots[i].Some? ==>
      slots[i].value.key in Contents(t.slots) && Contents(t.slots)[slots[i].value.key] == slots[i].value.value
    ensures |t.slots| > 0 && InsertAll(t, slots) == Ok(t)
  {
    SizeFacts(|t.slots|);
    if slots != [] {
      var last := slots[|slots| - 1];
      InsertAllSame(t, slots[..|slots| - 1]);
      if last.Some? {
        InsertSame(t, last.value.key, last.value.value);
      }
    }
  }

  lemma SlotsAreTheirContents(slots: seq<Slot>)
    requires Distinct(slots)
    ensures forall i :: 0 <= i < |slots| && slots[i].Some? ==>
      slots[i].value.key in Contents(slots) && Contents(slots)[slots[i].value.key] == slots[i].value.value
  {
    forall i | 0 <= i < |slots| && slots[i].Some?
      ensures slots[i].value.key in Contents(slots)
      ensures Contents(slots)[slots[i].value.key] == slots[i].value.value
    {
      SlotInContents(slots, i);
    }
  }

  // The two stages of a merge, with no overflow of the sum of the sizes.
  lemma SpreadPlan(t: Table, s: Table)
    requires Valid(t) && Valid(s)
    ensures Probed(t) && s.used <= |s.slots| && s.used + t.used < TWO_64
    ensures var grown := Grow(t, s.used + t.used);
      if grown.Ok? then |grown.table.slots| > 0 && Spread(t, s) == InsertAll(grown.table, s.slots[..s.used])
      else Spread(t, s) == grown
    ensures Spread(t, s).Ok? ==>
      Contents(Spread(t, s).table.slots) == Contents(t.slots) + Contents(s.slots[..s.used])
  {
    hide Grow, InsertAll, HashTableRuns.TooManyKeys;
    SizeFacts(|s.slots|);
    SizeFacts(|t.slots|);
    hide Capacity;
    GrowRefines(t, s.used + t.used);
    HashTableRuns.SpreadRefines(t, s, s.used);
  }

  lemma SpreadStep(grown: Table, slots: seq<Slot>, i: nat, u: Table, same: bool)
    requires |grown.slots| > 0 && i < |slots| && InsertAll(grown, slots[..i]) == Ok(u)
    requires Valid(u) && (same ==> u == grown && slots == grown.slots)
    ensures |u.slots| > 0
    ensures InsertAll(grown, slots[..i + 1]) ==
      if slots[i].Some? then Insert(u, slots[i].value.key, slots[i].value.value) else Ok(u)
    ensures same && slots[i].Some? ==>
      && slots[i].value.key in Contents(grown.slots)
      && Insert(u, slots[i].value.key, slots[i].value.value) == Ok(grown)
  {
    SizeFacts(|u.slots|);
    InsertAllStep(grown, slots, i, u);
    if same && slots[i].Some? {
      SlotInContents(slots, i);
      InsertSame(grown, slots[i].value.key, slots[i].value.value);
    }
  }

  lemma InsertAllStep(t: Table, slots: seq<Slot>, i: nat, u: Table)
    requires |t.slots| > 0 && |u.slots| > 0 && i < |slots| && InsertAll(t, slots[..i]) == Ok(u)
    ensures InsertAll(t, slots[..i + 1]) ==
      if slots[i].Some? then Insert(u, slots[i].value.key, slots[i].value.value) else Ok(u)
  {
    assert slots[..i + 1][..i] == slots[..i];
  }

  // Merging a table into itself reads the slots of the grown table where the
  // definition reads those from before; neither changes anything.
  lemma SelfSpread(grown: Table, slots: seq<Slot>, s: Table, same: bool)
    requires Valid(grown) && Valid(s)
    requires if same then slots == grown.slots && Contents(slots) == Contents(s.slots) && grown.used == s.used
      else slots == s.slots
    ensures s.used <= |slots| && s.used <= |s.slots| && |grown.slots| > 0
    ensures InsertAll(grown, slots[..0]) == Ok(grown)
    ensures InsertAll(grown, slots[..s.used]) == InsertAll(grown, s.slots[..s.used])
  {
    SizeFacts(|slots|);
    SizeFacts(|s.slots|);
    SizeFacts(|grown.slots|);
    if same {
      SlotsAreTheirContents(slots);
      SlotsAreTheirContents(s.slots);
      InsertAllSame(grown, s.slots[..s.used]);
      InsertAllSame(grown, slots[..s.used]);
    }
  }

  lemma {:induction false} InsertAllPrefixFails(t: Table, slots: seq<Slot>, i: nat)
    requires |t.slots| > 0 && i <= |slots| && !InsertAll(t, slots[..i]).Ok?
    ensures InsertAll(t, slots) == InsertAll(t, slots[..i])
    decreases |slots|
  {
    if i == |slots| {
      assert slots[..i] == slots;
    } else {
      var front := slots[..|slots| - 1];
      assert front[..i] == slots[..i];
      InsertAllPrefixFails(t, front, i);
    }
  }

  // The stages of growing: the table made for the new size has room for every entry.
  lemma GrowPlan(t: Table, newSize: nat)
    requires Probed(t)
    ensures newSize <= t.used ==> Grow(t, newSize) == Shrinking
    ensures newSize > t.used && !Init(newSize).Ok? ==> Grow(t, newSize) == Init(newSize)
    ensures newSize > t.used && Init(newSize).Ok? ==>
      var empty := Init(newSize).table;
      && Valid(empty) && empty.used == 0 && Count(t.slots) <= t.used < empty.capacity && |empty.slots| > 0
      && Grow(t, newSize) == Ok(PutAll(empty, t.slots)) && PutAll(empty, t.slots[..0]) == empty
      && Contents(PutAll(empty, t.slots).slots) == Contents(t.slots)
      && PutAll(empty, t.slots).used == t.used && Valid(PutAll(empty, t.slots))
  {
    GrowRefines(t, newSize);
    InitIsLeast(newSize);
    hide Capacity;
  }

  class BalMap {
    var used: nat
    var capacity: nat
    var nEntries: nat
    var entries: array<Slot>

    ghost function AsTable(): Table
      reads this, entries
    {
      Table(entries[..], used, capacity)
    }

    // The finite map this object stands for.
    ghost function Model(): map<Key, Int64>
      reads this, entries
    {
      Contents(entries[..])
    }

    ghost predicate Consistent()
      reads this, entries
    {
      nEntries == entries.Length && Valid(AsTable())
    }

    // 1 when the next new key makes the table grow.
    ghost function GrowthRank(): nat
      reads this
    {
      if used + 1 >= capacity then 1 else 0
    }

    // Uninitialised storage, as a local BalMap or a fresh allocation is.
    constructor ()
      ensures fresh(entries)
    {
      used, capacity, nEntries := 0, 0, 0;
      entries := new Slot[0];
    }

    method InitHashtable(minCapacity: nat) returns (status: Status)
      modifies this
      ensures status == StatusOf(Init(minCapacity))
      ensures status == Returned ==> Consistent() && AsTable() == Init(minCapacity).table && fresh(entries)
    {
      used := 0;
      var n: nat := HASH_TABLE_MIN_SIZE;
      MinSize();
      while Capacity(n) < minCapacity
        invariant TableSize(n) && n < TWO_64 && used == 0
        invariant SizeFor(n, minCapacity) == SizeFor(HASH_TABLE_MIN_SIZE, minCapacity)
        decreases TWO_64 - n
      {
        DoubleSize(n);
        n := 2 * n % TWO_64;
        if n == 0 {
          return AbortCapacityOverflow;
        }
      }
      capacity := Capacity(n);
      nEntries := n;
      entries := new Slot[n](_ => None);
      EmptyIsValid(n);
      assert AsTable() == Empty(n);
      return Returned;
    }

    static method Create() returns (status: Status, m: BalMap)
      ensures status == StatusOf(Init(INITIAL_SIZE))
      ensures fresh(m)
      ensures status == Returned ==> m.Consistent() && m.Model() == map[] && fresh(m.entries)
      ensures status == Returned ==> m.AsTable() == Init(INITIAL_SIZE).table
    {
      m := new BalMap();
      status := m.InitHashtable(INITIAL_SIZE);
      InitIsLeast(INITIAL_SIZE);
    }

    method GrowHashtable(newSize: nat) returns (status: Status)
      requires nEntries == entries.Length && Probed(AsTable())
      modifies this
      ensures status == StatusOf(Grow(old(AsTable()), newSize))
      ensures status == Returned ==>
        Consistent() && AsTable() == Grow(old(AsTable()), newSize).table && fresh(entries)
      ensures status == Returned ==> Model() == old(Model()) && used == old(used)
      decreases 1, 0
    {
      hide Valid, Probed, Capacity, Grow, Init, PutAll, HashTable.Insert, Contents, Count;
      GrowPlan(AsTable(), newSize);
      if newSize <= used {
        return AbortShrinking;
      }
      var nMap := new BalMap();
      status := nMap.InitHashtable(newSize);
      if status != Returned {
        return;
      }
      ghost var empty, slots := nMap.AsTable(), entries[..];
      var n := nEntries;
      var i := 0;
      while i < n
        invariant i <= n && fresh(nMap) && fresh(nMap.entries)
        invariant entries == old(entries) && entries[..] == slots && used == old(used)
        invariant nMap.Consistent() && nMap.AsTable() == PutAll(empty, slots[..i])
      {
        RehashStep(empty, slots, i, used);
        if entries[i].Some? {
          status := nMap.Insert(entries[i].value.key, entries[i].value.value);
        }
        i := i + 1;
      }
      assert slots[..n] == slots;
      used := nMap.used;
      capacity := nMap.capacity;
      nEntries := nMap.nEntries;
      entries := nMap.entries;
      return Returned;
    }

    method InsertWithHash(key: Key, value: Int64, hash: Word) returns (status: Status)
      requires Consistent() && hash == Hash(key)
      modifies this, entries
      ensures status == StatusOf(HashTable.Insert(old(AsTable()), key, value))
      ensures status == Returned ==>
        Consistent() && AsTable() == HashTable.Insert(old(AsTable()), key, value).table
      ensures status == Returned ==> entries == old(entries) || fresh(entries)
      ensures key in old(Model()) ==> entries == old(entries)
      decreases GrowthRank(), 1
    {
      hide Distinct, Chained, TableSize, Capacity;
      ghost var t := AsTable();
      ghost var target := InsertPlan(t, key, value);
      ghost var u := Put(t, key, value);
      var i := BitAnd(hash, nEntries - 1);
      if i >= nEntries {
        assert false;
      }
      ghost var d := 0;
      while true
        invariant d <= target && i == At(Home(key, |t.slots|), d, |t.slots|)
        invariant entries[..] == t.slots && used == t.used && capacity == t.capacity
        invariant entries == old(entries) && nEntries == entries.Length
        decreases target - d
      {
        if entries[i].None? {
          assert !Passed(t.slots, key, d);
          break;
        }
        if key == entries[i].value.key {
          assert !Passed(t.slots, key, d);
          entries[i] := Some(Entry(key, value));
          assert entries[..] == u.slots;
          assert AsTable() == u;
          return Returned;
        }
        assert Passed(t.slots, key, d);
        if i > 0 {
          i := i - 1;
        } else {
          i := nEntries - 1;
        }
        d := d + 1;
      }
      entries[i] := Some(Entry(key, value));
      used := used + 1;
      assert entries[..] == u.slots;
      assert AsTable() == u;
      if used >= capacity {
        status := GrowHashtable(used + 1);
      } else {
        status := Returned;
      }
    }

    // Afterwards the map is the old one with `key` bound to `value`.
    method Insert(key: Key, value: Int64) returns (status: Status)
      requires Consistent()
      modifies this, entries
      ensures status == StatusOf(HashTable.Insert(old(AsTable()), key, value))
      ensures status == Returned ==>
        Consistent() && AsTable() == HashTable.Insert(old(AsTable()), key, value).table
      ensures status == Returned ==> Model() == old(Model())[key := value]
      ensures status == Returned ==> entries == old(entries) || fresh(entries)
      ensures key in old(Model()) ==> entries == old(entries)
      decreases GrowthRank(), 2
    {
      InsertRefines(AsTable(), key, value);
      var hash := StringHash(key);
      status := InsertWithHash(key, value, hash);
    }

    method LookupWithHash(key: Key, hash: Word) returns (r: Option<Int64>)
      requires Consistent() && hash == Hash(key)
      ensures r == HashTable.Lookup(AsTable(), key)
    {
      ghost var t := AsTable();
      ghost var n := |t.slots|;
      ProbeTerminates(t, key);
      var i := BitAnd(hash, nEntries - 1);
      if i >= nEntries {
        assert false;
      }
      ghost var d := 0;
      while true
        invariant d < n && i == At(Home(key, n), d, n)
        invariant Probe(t.slots, key, 0) == Probe(t.slots, key, d)
        decreases n - d
      {
        if entries[i].None? {
          return None;
        }
        if key == entries[i].value.key {
          return Some(entries[i].value.value);
        }
        if i > 0 {
          i := i - 1;
        } else {
          i := nEntries - 1;
        }
        d := d + 1;
      }
    }

    method Lookup(key: Key) returns (r: Option<Int64>)
      requires Consistent()
      ensures r == HashTable.Lookup(AsTable(), key)
      ensures r == if key in Model() then Some(Model()[key]) else None
    {
      LookupRefines(AsTable(), key);
      var hash := StringHash(key);
      r := LookupWithHash(key, hash);
    }

    // Merging src, which may be this very object, into this one.
    method SpreadFieldInit(src: BalMap) returns (status: Status)
      requires Consistent() && src.Consistent()
      requires src != this ==> src.entries != entries
      modifies this
      ensures status == StatusOf(Spread(old(AsTable()), old(src.AsTable())))
      ensures status == Returned ==>
        Consistent() && AsTable() == Spread(old(AsTable()), old(src.AsTable())).table
      ensures status == Returned ==>
        Model() == old(Model()) + Contents(old(src.entries[..src.used]))
    {
      hide Valid, Probed, Contents, Capacity, HashTable.Insert, InsertAll, Grow, Spread, SpreadUpTo;
      ghost var t, s := AsTable(), src.AsTable();
      SpreadPlan(t, s);
      var srcUsed := src.used;
      var targetUsed := used;
      if srcUsed > TWO_64 - 1 - targetUsed {
        assert false;
      }
      status := GrowHashtable(srcUsed + targetUsed);
      if status != Returned {
        return;
      }
      ghost var grown := AsTable();
      var from := src.entries;
      ghost var slots := from[..];
      SelfSpread(grown, slots, s, src == this);
      var i := 0;
      while i < srcUsed
        invariant i <= srcUsed <= |slots| && from[..] == slots && |grown.slots| > 0
        invariant Consistent() && fresh(entries) && InsertAll(grown, slots[..i]) == Ok(AsTable())
        invariant src == this ==> from == entries && AsTable() == grown
        invariant src != this ==> from != entries
      {
        SpreadStep(grown, slots, i, AsTable(), src == this);
        if from[i].Some? {
          status := Insert(from[i].value.key, from[i].value.value);
          if status != Returned {
            assert slots[..srcUsed][..i + 1] == slots[..i + 1];
            InsertAllPrefixFails(grown, slots[..srcUsed], i + 1);
            return;
          }
        }
        i := i + 1;
      }
      return Returned;
    }
  }

  lemma {:induction false} CountPrefix(slots: seq<Slot>, i: nat)
    requires i <= |slots|
    ensures Count(slots[..i]) <= Count(slots)
    decreases |slots|
  {
    if i == |slots| {
      assert slots[..i] == slots;
    } else {
      assert slots[..|slots| - 1][..i] == slots[..i];
      CountPrefix(slots[..|slots| - 1], i);
    }
  }
}

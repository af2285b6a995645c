// Whole runs of a table from its creation, the cost of rehashing, and merging.
module HashTableRuns {
  import opened Options
  import opened Words
  import opened HashTable

  // ----- Insert-only runs -----

  // The table after creation and the insertions, in order, and how many entries
  // were inserted a second time by growing on the way.
  datatype Run = Run(outcome: Outcome, rehashed: nat)

  function Create(): Outcome {
    Init(INITIAL_SIZE)
  }

  function Inserts(ops: seq<Entry>): Run {
    if ops == [] then Run(Create(), 0)
    else
      var before := Inserts(ops[..|ops| - 1]);
      var op := ops[|ops| - 1];
      if before.outcome.Ok? && |before.outcome.table.slots| > 0
      then
        var t := before.outcome.table;
        Run(Insert(t, op.key, op.value), before.rehashed + Rehashes(t, op.key, op.value))
      else before
  }

  // The entries that one insertion moves to a larger table.
  function Rehashes(t: Table, k: Key, v: Int64): nat
    requires |t.slots| > 0
  {
    var u := Put(t, k, v);
    if u.used > t.used && Full(u) then u.used else 0
  }

  // The value most recently inserted for k.
  function LastInserted(ops: seq<Entry>, k: Key): Option<Int64> {
    if ops == [] then None
    else if ops[|ops| - 1].key == k then Some(ops[|ops| - 1].value)
    else LastInserted(ops[..|ops| - 1], k)
  }

  lemma CreateIsValid()
    ensures Create().Ok?
    ensures Valid(Create().table) && Contents(Create().table.slots) == map[]
    ensures |Create().table.slots| == 16
  {
    InitIsLeast(INITIAL_SIZE);
    assert Capacity(8) == 4 && Capacity(16) == 9;
    assert SizeFor(16, INITIAL_SIZE) == Some(16);
  }

  // After any insertions, with any number of rehashes in between, a lookup
  // returns the last value inserted for the key and finds no other key.
  lemma {:induction false} LookupAfterInserts(ops: seq<Entry>, k: Key)
    requires Inserts(ops).outcome.Ok?
    ensures Valid(Inserts(ops).outcome.table)
    ensures |Inserts(ops).outcome.table.slots| > 0
    ensures Lookup(Inserts(ops).outcome.table, k) == LastInserted(ops, k)
  {
    CreateIsValid();
    if ops == [] {
      LookupRefines(Create().table, k);
    } else {
      var op := ops[|ops| - 1];
      LookupAfterInserts(ops[..|ops| - 1], k);
      var t := Inserts(ops[..|ops| - 1]).outcome.table;
      InsertRefines(t, op.key, op.value);
      LookupRefines(t, k);
      LookupRefines(Inserts(ops).outcome.table, k);
    }
  }

  // No run of fewer than capacity(2^63) insertions aborts.
  lemma {:induction false} InsertsSucceed(ops: seq<Entry>)
    requires |ops| < Capacity(TWO_63)
    ensures Inserts(ops).outcome.Ok?
    ensures Inserts(ops).outcome.table.used <= |ops|
  {
    CreateIsValid();
    if ops == [] {
      EmptyUsed();
    } else {
      var op := ops[|ops| - 1];
      InsertsSucceed(ops[..|ops| - 1]);
      LookupAfterInserts(ops[..|ops| - 1], op.key);
      var t := Inserts(ops[..|ops| - 1]).outcome.table;
      InsertRefines(t, op.key, op.value);
      InsertEffect(t, op.key, op.value);
    }
  }

  // What one insertion does to the sizes. Growth moves exactly `capacity` entries
  // and doubles the slots.
  lemma InsertEffect(t: Table, k: Key, v: Int64)
    requires Valid(t)
    ensures |t.slots| > 0
    ensures Insert(t, k, v).Ok? ==>
      var u, moved := Insert(t, k, v).table, Rehashes(t, k, v);
      && u.used == t.used + (if k in Contents(t.slots) then 0 else 1)
      && (moved == 0 || (moved == t.capacity == u.used))
      && |u.slots| == (if moved == 0 then |t.slots| else 2 * |t.slots|)
  {
    hide Capacity, Init, Grow;
    PutRefines(t, k, v);
    var p := Put(t, k, v);
    if p.used > t.used && Full(p) {
      InsertGrowthDoubles(t, k, v);
      GrowRefines(p, p.used + 1);
    }
  }

  lemma EmptyUsed()
    ensures Create().Ok? ==> Create().table.used == 0
  {
    InitIsLeast(INITIAL_SIZE);
  }

  // What insertions from creation keep: a table that has grown holds at least as
  // many entries as its former capacity, and has moved fewer than twice that.
  ghost predicate Amortised(t: Table, rehashed: nat) {
    if |t.slots| == 16 then rehashed == 0
    else
      exists half: nat ::
        && TableSize(half) && half >= 16 && |t.slots| == 2 * half
        && Capacity(half) <= t.used && rehashed < 2 * Capacity(half)
  }

  // Rehashing is amortised: over insertions from creation, fewer entries are
  // re-inserted than twice the number of distinct keys.
  lemma {:induction false} RehashingIsAmortised(ops: seq<Entry>)
    requires Inserts(ops).outcome.Ok?
    ensures var r := Inserts(ops);
      && Valid(r.outcome.table) && Amortised(r.outcome.table, r.rehashed)
      && (r.rehashed == 0 || r.rehashed < 2 * |Contents(r.outcome.table.slots)|)
  {
    CreateIsValid();
    if ops != [] {
      var op := ops[|ops| - 1];
      RehashingIsAmortised(ops[..|ops| - 1]);
      var before := Inserts(ops[..|ops| - 1]);
      AmortisedStep(before.outcome.table, before.rehashed, op.key, op.value);
    }
    CountIsSize(Inserts(ops).outcome.table.slots);
  }

  lemma AmortisedStep(t: Table, rehashed: nat, k: Key, v: Int64)
    requires Valid(t) && Amortised(t, rehashed)
    ensures |t.slots| > 0
    ensures Insert(t, k, v).Ok? ==>
      Valid(Insert(t, k, v).table) && Amortised(Insert(t, k, v).table, rehashed + Rehashes(t, k, v))
  {
    InsertRefines(t, k, v);
    InsertEffect(t, k, v);
    var n := |t.slots|;
    if Insert(t, k, v).Ok? && Rehashes(t, k, v) > 0 {
      if n == 16 {
        assert Capacity(16) == 9;
      } else {
        var half: nat :| TableSize(half) && half >= 16 && n == 2 * half
          && Capacity(half) <= t.used && rehashed < 2 * Capacity(half);
        SizeFacts(half);
      }
      assert TableSize(n) && |Insert(t, k, v).table.slots| == 2 * n;
    }
  }

  // ----- Merging -----

  // Merging these entries of src asks for more slots than there are: for the sum of
  // the sizes, or for the keys of the result.
  ghost predicate TooManyKeys(t: Table, src: Table, bound: nat)
    requires bound <= |src.slots|
  {
    || t.used + src.used > Capacity(TWO_63)
    || |Contents(t.slots) + Contents(src.slots[..bound])| >= Capacity(TWO_63)
  }

  // The result of a merge that scans the slots of src below `bound`. An empty src
  // aborts as shrinking and too many keys as overflow. Otherwise the target is
  // overridden by exactly those entries, in a table that keeps the invariant even
  // when the first step picks a smaller size.
  lemma SpreadRefines(t: Table, src: Table, bound: nat)
    requires Valid(t) && Valid(src) && bound <= |src.slots|
    ensures var r := SpreadUpTo(t, src, bound);
      && (r.Shrinking? <==> src.used == 0)
      && (r.CapacityOverflow? <==> src.used > 0 && TooManyKeys(t, src, bound))
      && (r.Ok? ==>
            Valid(r.table) && Contents(r.table.slots) == Contents(t.slots) + Contents(src.slots[..bound]))
  {
    hide InsertAll, Grow, Capacity;
    GrowRefines(t, src.used + t.used);
    var grown := Grow(t, src.used + t.used);
    if grown.Ok? {
      InsertAllRefines(grown.table, src.slots[..bound]);
    }
  }

  // A scan of every slot gives the override a spread field stands for, whenever src
  // is not empty and the keys are not too many.
  lemma FullScanSpreads(t: Table, src: Table)
    requires Valid(t) && Valid(src)
    ensures var r := SpreadUpTo(t, src, |src.slots|);
      && (r.Ok? <==> src.used > 0 && !TooManyKeys(t, src, |src.slots|))
      && (r.Ok? ==> Valid(r.table) && Contents(r.table.slots) == Contents(t.slots) + Contents(src.slots))
  {
    SpreadRefines(t, src, |src.slots|);
    assert src.slots[..|src.slots|] == src.slots;
  }

  // The entries of src in slots from src.used on, which the loop never visits.
  predicate SkippedAgree(t: Table, src: Table) {
    forall j :: src.used <= j < |src.slots| && src.slots[j].Some? ==>
      && src.slots[j].value.key in Contents(t.slots)
      && Contents(t.slots)[src.slots[j].value.key] == src.slots[j].value.value
  }

  // The loop as written ends with the target overridden by src exactly when src is
  // not empty, the keys are not too many, and every entry of src it never visits is
  // in the target already, with the same value.
  lemma SpreadIsOverrideIff(t: Table, src: Table)
    requires Valid(t) && Valid(src)
    ensures src.used <= |src.slots|
    ensures var r := Spread(t, src);
      (r.Ok? && Valid(r.table) && Contents(r.table.slots) == Contents(t.slots) + Contents(src.slots))
      <==> src.used > 0 && !TooManyKeys(t, src, src.used) && SkippedAgree(t, src)
  {
    hide SpreadUpTo;
    SizeFacts(|src.slots|);
    SpreadRefines(t, src, src.used);
    LowIsWholeIff(t, src);
  }

  // Overriding by the low slots is overriding by all of them exactly when the
  // others agree with the target.
  lemma LowIsWholeIff(t: Table, src: Table)
    requires Distinct(src.slots) && src.used <= |src.slots|
    ensures var c := Contents(t.slots);
      c + Contents(src.slots[..src.used]) == c + Contents(src.slots) <==> SkippedAgree(t, src)
  {
    var low := src.slots[..src.used];
    var c, l, s := Contents(t.slots), Contents(low), Contents(src.slots);
    LowContents(src.slots, src.used);
    DistinctPrefix(src.slots, src.used);
    if c + l == c + s {
      forall j | src.used <= j < |src.slots| && src.slots[j].Some?
        ensures src.slots[j].value.key in c && c[src.slots[j].value.key] == src.slots[j].value.value
      {
        var k := src.slots[j].value.key;
        SlotInContents(src.slots, j);
        assert k !in l;
        assert (c + s)[k] == s[k];
      }
    }
    if SkippedAgree(t, src) {
      forall k | k in s
        ensures k in c + l && (c + l)[k] == s[k]
      {
        var j := KeyHasSlot(src.slots, k);
        if j < src.used {
          SlotInContents(low, j);
        }
      }
      assert c + l == c + s;
    }
  }

  // The entries below `bound` have the values of the whole, and no key of a later slot.
  lemma LowContents(slots: seq<Slot>, bound: nat)
    requires Distinct(slots) && bound <= |slots|
    ensures forall k :: k in Contents(slots[..bound]) ==>
      k in Contents(slots) && Contents(slots[..bound])[k] == Contents(slots)[k]
    ensures forall j :: bound <= j < |slots| && slots[j].Some? ==> slots[j].value.key !in Contents(slots[..bound])
  {
    var low := slots[..bound];
    forall k | k in Contents(low)
      ensures k in Contents(slots) && Contents(low)[k] == Contents(slots)[k]
    {
      var j := KeyHasSlot(low, k);
      SlotInContents(slots, j);
    }
    forall j | bound <= j < |slots| && slots[j].Some?
      ensures slots[j].value.key !in Contents(low)
    {
      forall i | 0 <= i < bound
        ensures !Holds(low[i], slots[j].value.key)
      {
        assert Apart(slots, i, j);
      }
      NoSlotNoKey(low, slots[j].value.key);
    }
  }

  // A new mapping with one key: the entry is in the home slot of the key.
  lemma OneKey(k: Key, v: Int64)
    ensures Create().Ok? && |Create().table.slots| == 16 && Create().table == Empty(16)
    ensures var r := Insert(Create().table, k, v);
      r.Ok? && Valid(r.table) && r.table.used == 1 && Contents(r.table.slots) == map[k := v]
      && r.table.slots == Create().table.slots[Hash(k) % 16 := Some(Entry(k, v))]
  {
    CreateIsValid();
    EmptyUsed();
    var t := Create().table;
    HomeIsRemainder(k, 16);
    assert Probe(t.slots, k, 0) == 0 by {
      assert !Passed(t.slots, k, 0);
    }
    InsertRefines(t, k, v);
  }

  lemma OneCharacter(c: Byte)
    ensures Hash([c]) == 5381 * 33 + c
  {
    var s := [c];
    assert s[..0] == [];
    assert HashSum(s) == HashSum(s[..0]) * 33 + s[0] == 5381 * 33 + c;
  }

  // A mapping with the one key "a", spread into a new mapping, contributes nothing:
  // its entry is in slot 6 and the loop visits slot 0 only.
  lemma SpreadDropsAnEntry()
    ensures var a: Key := [97];
      var empty := Create();
      empty.Ok? && |empty.table.slots| > 0 &&
      var src := Insert(empty.table, a, 1);
      src.Ok? && Contents(src.table.slots) == map[a := 1] &&
      var merged := Spread(empty.table, src.table);
      merged.Ok? && Contents(merged.table.slots) == map[]
  {
    var a: Key := [97];
    OneKey(a, 1);
    OneCharacter(97);
    CreateIsValid();
    EmptyUsed();
    var t := Create().table;
    var src := Insert(t, a, 1).table;
    assert src.slots[..1] == [None];
    assert Contents([None]) == map[];
    OneVisited(t, src);
  }

  // The key "k" has slot 0 for its home, so spreading it does contribute it.
  lemma SpreadKeepsAnEntry()
    ensures var k: Key := [107];
      var empty := Create();
      empty.Ok? && |empty.table.slots| > 0 &&
      var src := Insert(empty.table, k, 1);
      src.Ok? && Contents(src.table.slots) == map[k := 1] &&
      var merged := Spread(empty.table, src.table);
      merged.Ok? && Contents(merged.table.slots) == map[k := 1]
  {
    var k: Key := [107];
    OneKey(k, 1);
    OneCharacter(107);
    CreateIsValid();
    EmptyUsed();
    var t := Create().table;
    var src := Insert(t, k, 1).table;
    assert src.slots[..1] == [Some(Entry(k, 1))];
    assert Contents(src.slots[..1]) == map[k := 1];
    OneVisited(t, src);
  }

  // Merging a table of one key into an empty one.
  lemma OneVisited(t: Table, src: Table)
    requires Valid(t) && Valid(src) && t.used == 0 && src.used == 1 && Contents(t.slots) == map[]
    ensures |src.slots| > 1
    ensures var r := Spread(t, src);
      r.Ok? && Contents(r.table.slots) == Contents(src.slots[..1])
  {
    hide SpreadUpTo;
    SizeFacts(|src.slots|);
    SpreadRefines(t, src, 1);
    var c := Contents(src.slots[..1]);
    assert Contents(t.slots) + c == c;
    CapacityIsThreeFifths(TWO_63);
    DistinctPrefix(src.slots, 1);
    CountIsSize(src.slots[..1]);
  }

  // A table made for ten keys has 32 slots.
  lemma RoomForTen()
    ensures Init(10) == Ok(Empty(32)) && Empty(32).capacity == 19
  {
    CapacityIsThreeFifths(8);
    CapacityIsThreeFifths(16);
    CapacityIsThreeFifths(32);
    assert SizeFor(16, 10) == SizeFor(32, 10) == Some(32);
  }

  // After insertions from creation the table has 16 slots exactly while it has fewer
  // than nine keys, and whatever its size, no smaller one from 16 up would do.
  lemma SizeFollowsKeys(ops: seq<Entry>)
    requires Inserts(ops).outcome.Ok?
    ensures var t := Inserts(ops).outcome.table;
      && (|t.slots| == 16 <==> |Contents(t.slots)| < 9)
      && |Contents(t.slots)| < Capacity(|t.slots|)
      && (|t.slots| == 16 || Capacity(|t.slots| / 2) <= |Contents(t.slots)|)
  {
    RehashingIsAmortised(ops);
    var t := Inserts(ops).outcome.table;
    UsedIsSize(t);
    CapacityIsThreeFifths(16);
    if |t.slots| != 16 {
      var half: nat :| TableSize(half) && half >= 16 && |t.slots| == 2 * half && Capacity(half) <= t.used;
      CapacityMonotone(16, half);
    }
  }

  // The sum of the sizes of two valid tables is a size_t, so the first abort of a
  // merge cannot happen.
  lemma SpreadSizeFits(t: Table, src: Table)
    requires Valid(t) && Valid(src)
    ensures src.used + t.used < TWO_64
  {
    SizeFacts(|t.slots|);
    SizeFacts(|src.slots|);
  }

  // Spreading a mapping that was just created aborts.
  lemma EmptySpreadAborts()
    ensures var empty := Create();
      empty.Ok? && Spread(empty.table, empty.table).Shrinking?
  {
    CreateIsValid();
    EmptyUsed();
    SpreadRefines(Create().table, Create().table, 0);
  }

  // Nor is any key in it.
  lemma NoKeyInCreated(k: Key)
    ensures var empty := Create();
      empty.Ok? && Lookup(empty.table, k).None?
  {
    hide Lookup, Create;
    CreateIsValid();
    LookupRefines(Create().table, k);
  }
}

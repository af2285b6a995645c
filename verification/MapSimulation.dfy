// Mapping constructors, stores and loads: the tables of the runtime follow the
// finite maps of the language.
module MapSimulation {
  import opened Options
  import opened Words
  import opened HashTable
  import HashTableRuns
  import opened TaggedValues
  import opened Ir
  import opened Bir
  import opened Lowering
  import opened Matching
  import opened Simulation
  import opened CastSimulation

  // ----- Tables and maps -----

  lemma TableReplaced(maps: seq<map<Key, Int64>>, tables: seq<Table>, l: nat, t: Table)
    requires MapsMatch(maps, tables) && l < |maps| && Valid(t)
    ensures MapsMatch(maps[l := Contents(t.slots)], tables[l := t])
  {
  }

  lemma TableAdded(maps: seq<map<Key, Int64>>, tables: seq<Table>)
    requires MapsMatch(maps, tables)
    ensures HashTableRuns.Create().Ok?
    ensures MapsMatch(maps + [map[]], tables + [HashTableRuns.Create().table])
  {
    HashTableRuns.CreateIsValid();
  }

  lemma TableHasSlots(maps: seq<map<Key, Int64>>, tables: seq<Table>, l: nat)
    requires MapsMatch(maps, tables) && l < |maps|
    ensures l < |tables| && Valid(tables[l]) && |tables[l].slots| > 0 && Contents(tables[l].slots) == maps[l]
  {
    SizeFacts(|tables[l].slots|);
  }

  // The spread the runtime performs is the one of the language: src is not empty,
  // and each of its entries is visited or is in the target already.
  predicate SpreadAgrees(target: Table, src: Table) {
    src.used > 0 && HashTableRuns.SkippedAgree(target, src)
  }

  // What a spread call does: it aborts exactly on an empty src, runs out exactly when
  // the keys are too many, and leaves the override of the target by src exactly when
  // neither happens and SpreadAgrees.
  lemma SpreadFaithfulIff(target: Table, src: Table)
    requires Valid(target) && Valid(src)
    ensures src.used <= |src.slots|
    ensures var r := Spread(target, src);
      && (r.Shrinking? <==> src.used == 0)
      && (r.CapacityOverflow? <==> src.used > 0 && HashTableRuns.TooManyKeys(target, src, src.used))
      && (r.Ok? ==> Valid(r.table))
      && ((r.Ok? && Contents(r.table.slots) == Contents(target.slots) + Contents(src.slots))
          <==> SpreadAgrees(target, src) && !HashTableRuns.TooManyKeys(target, src, src.used))
  {
    hide Spread, SpreadUpTo, HashTableRuns.TooManyKeys, HashTableRuns.SkippedAgree;
    SizeFacts(|src.slots|);
    SpreadScansUsed(target, src);
    HashTableRuns.SpreadRefines(target, src, src.used);
    HashTableRuns.SpreadIsOverrideIff(target, src);
  }

  lemma SpreadScansUsed(target: Table, src: Table)
    requires src.used <= |src.slots|
    ensures Spread(target, src) == SpreadUpTo(target, src, src.used)
  {
  }

  // ----- Runtime calls -----

  // A step after which both sides have new maps and tables.
  lemma TablesStep(c: Setting, k: nat, m: Store, code: seq<Instr>, pc: nat, im: IrStore,
                   maps: seq<map<Key, Int64>>, tables: seq<Table>, dst: nat, iv: IrVal) returns (im': IrStore)
    requires c.After(k) == IrRunning(code, pc, im) && StoreMatch(c.p, m, im)
    requires MapsMatch(maps, tables) && |m.maps| <= |maps|
    requires IrStep(c.env, LowerPackage(c.p), IrRunning(code, pc, im))
      == IrRunning(code, pc + 1, SetTmp(im.(tables := tables), dst, iv))
    ensures im' == SetTmp(im.(tables := tables), dst, iv)
    ensures c.After(k + 1) == IrRunning(code, pc + 1, im') && StoreMatch(c.p, m.(maps := maps), im')
  {
    hide IrRun, LowerPackage, IrStep, FrameMatch, CellsMatch, CallersMatch, MapsMatch;
    NextStep(c, k);
    StoreMatchGrows(c.p, m, im, maps, tables, im.heap);
    assert im.(tables := tables, heap := im.heap) == im.(tables := tables);
    var grown := im.(tables := tables);
    im' := SetTmp(grown, dst, iv);
    ScratchMatch(c.p, m.(maps := maps), grown, im'.frame.tmps, im'.frame.outs);
  }

  lemma StoreHasTables(p: Package, m: Store, im: IrStore)
    requires StoreMatch(p, m, im)
    ensures MapsMatch(m.maps, im.tables)
  {
  }

  lemma NewMapCode(c: Setting, m: Store, lhs: Operand, fields: seq<MapField>,
                   rest: seq<Insn>, term: Terminator, code: seq<Instr>, pc: nat, im: IrStore, n: nat)
    requires Poised(c, m, NewMap(lhs, fields), rest, term, code, pc, im, n)
    ensures c.After(0) == IrRunning(code, pc, im) && StoreMatch(c.p, m, im)
    ensures Writable(c.p, m.frame.fn, lhs, MapTag)
    ensures pc + 2 <= |code| && code[pc] == CallRt(n, MapCreateFn, []) && code[pc + 1] == StoreTo(Tmp(n), RefOf(lhs))
    ensures code[pc + 2..] == Lowered(c.p, m.frame.fn, FieldInits(lhs, fields) + rest, Some(term), n + 1)
    ensures WfRest(c.p, m.frame.fn, FieldInits(lhs, fields) + rest, term)
  {
    hide IrRun, StoreMatch, Lowered, LowerFields, WfRest, TagOf, VarOf, IsMainResult, RefOf, LowerPackage, WfField,
      FieldsTemps;
    Window(code, pc, LowerInsn(c.p, m.frame.fn, NewMap(lhs, fields), n));
    FieldsFollow(c.p, m.frame.fn, lhs, fields, rest, term, code, pc, n);
    FieldInitsWf(c.p, m.frame.fn, lhs, fields, rest, term);
  }

  // The store when a mapping has been created and no field of it evaluated.
  function Created(m: Store, lhs: Operand): Store {
    Write(m.(maps := m.maps + [map[]]), lhs, MapV(|m.maps|))
  }

  // The two instructions that create a mapping.
  lemma NewMapRuns(c: Setting, m: Store, lhs: Operand, fields: seq<MapField>,
                   rest: seq<Insn>, term: Terminator, code: seq<Instr>, pc: nat, im: IrStore, n: nat)
    returns (im': IrStore)
    requires Poised(c, m, NewMap(lhs, fields), rest, term, code, pc, im, n)
    ensures HashTableRuns.Create().Ok?
    ensures c.After(2) == IrRunning(code, pc + 2, im') && StoreMatch(c.p, Created(m, lhs), im')
    ensures im'.tables == im.tables + [HashTableRuns.Create().table] && im'.heap == im.heap && |im.tables| == |m.maps|
  {
    hide IrRun, StoreMatch, Lowered, WfRest, RefOf, Match, LowerPackage, HashTableRuns.Create, MapsMatch, Poised,
      Writable, FieldInits;
    NewMapCode(c, m, lhs, fields, rest, term, code, pc, im, n);
    StoreHasTables(c.p, m, im);
    TableAdded(m.maps, im.tables);
    var maps := m.maps + [map[]];
    var tables := im.tables + [HashTableRuns.Create().table];
    assert EvalAll(im, []) == [];
    SameCount(m.maps, im.tables);
    var im1 := TablesStep(c, 0, m, code, pc, im, maps, tables, n, MapPtr(|im.tables|));
    im' := StoreStep(c, 1, m.(maps := maps), code, pc + 1, im1, Tmp(n), lhs, MapTag, MapV(|m.maps|));
  }

  lemma SimulateNewMap(c: Setting, m: Store, lhs: Operand, fields: seq<MapField>,
                       rest: seq<Insn>, term: Terminator, code: seq<Instr>, pc: nat, im: IrStore, n: nat)
    requires Poised(c, m, NewMap(lhs, fields), rest, term, code, pc, im, n)
    ensures Reaches(c, 2, ExecInsn(c.p, c.env.bir, m, NewMap(lhs, fields), rest, term))
  {
    hide IrRun, StoreMatch, Lowered, WfRest, RefOf, Match, LowerPackage, HashTableRuns.Create, Poised, Writable,
      FieldInits, Reaches;
    NewMapCode(c, m, lhs, fields, rest, term, code, pc, im, n);
    var im2 := NewMapRuns(c, m, lhs, fields, rest, term, code, pc, im, n);
    ReachesRest(c, 2, Created(m, lhs), FieldInits(lhs, fields) + rest, term, code, pc + 2, im2, n + 1);
  }

  lemma SameCount(maps: seq<map<Key, Int64>>, tables: seq<Table>)
    requires MapsMatch(maps, tables)
    ensures |maps| == |tables|
  {
  }

  // After the two instructions that create a mapping comes the code of its fields.
  lemma FieldsFollow(p: Package, f: Function, lhs: Operand, fields: seq<MapField>, rest: seq<Insn>,
                     term: Terminator, code: seq<Instr>, pc: nat, n: nat)
    requires var a := LowerInsn(p, f, NewMap(lhs, fields), n);
      && pc + |a| <= |code| && code[pc..pc + |a|] == a
      && code[pc + |a|..] == Lowered(p, f, rest, Some(term), n + 1 + FieldsTemps(fields))
    ensures pc + 2 <= |code|
    ensures code[pc + 2..] == Lowered(p, f, FieldInits(lhs, fields) + rest, Some(term), n + 1)
  {
    hide Lowered, LowerFields, FieldsTemps;
    var a := LowerInsn(p, f, NewMap(lhs, fields), n);
    var b := LowerFields(lhs, fields, n + 1);
    FieldsOneByOne(p, f, lhs, fields, rest, Some(term), n + 1);
    assert a[2..] == b;
    assert code[pc + 2..pc + |a|] == code[pc..pc + |a|][2..];
    assert code[pc + 2..] == code[pc + 2..pc + |a|] + code[pc + |a|..];
  }

  lemma FieldInitsWf(p: Package, f: Function, lhs: Operand, fields: seq<MapField>, rest: seq<Insn>, term: Terminator)
    requires WfInsn(p, f, NewMap(lhs, fields)) && WfRest(p, f, rest, term)
    ensures WfRest(p, f, FieldInits(lhs, fields) + rest, term)
  {
    hide WfTerm, WfField;
    var all := FieldInits(lhs, fields) + rest;
    forall j | 0 <= j < |all|
      ensures WfInsn(p, f, all[j])
    {
      if j < |fields| {
        assert all[j] == FieldInit(lhs, fields[j]);
      } else {
        assert all[j] == rest[j - |fields|];
      }
    }
  }

  // The call that stores an entry.
  lemma InsertStep(c: Setting, m: Store, code: seq<Instr>, pc: nat, im: IrStore, n: nat, l: nat, k: Key, v: Int64)
    returns (im': IrStore)
    requires c.After(3) == IrRunning(code, pc, im) && StoreMatch(c.p, m, im)
    requires pc < |code| && code[pc] == CallRt(n + 3, MapInsertFn, [Tmp(n + 1), Tmp(n + 2), Tmp(n)])
    requires l < |m.maps|
    requires Eval(im, Tmp(n + 1)) == MapPtr(l) && Eval(im, Tmp(n + 2)) == StrPtr(k) && Eval(im, Tmp(n)) == I64(v)
    ensures c.After(4).IrExhausted? ||
      (c.After(4) == IrRunning(code, pc + 1, im') && StoreMatch(c.p, m.(maps := WithEntry(m.maps, l, k, v)), im'))
  {
    hide IrRun, StoreMatch, LowerPackage, MapsMatch, Insert, Valid, Contents;
    assert EvalAll(im, [Tmp(n + 1), Tmp(n + 2), Tmp(n)]) == [MapPtr(l), StrPtr(k), I64(v)];
    StoreHasTables(c.p, m, im);
    TableHasSlots(m.maps, im.tables, l);
    InsertRefines(im.tables[l], k, v);
    NextStep(c, 3);
    var r := Insert(im.tables[l], k, v);
    im' := im;
    if r.Ok? {
      TableReplaced(m.maps, im.tables, l, r.table);
      im' := TablesStep(c, 3, m, code, pc, im, m.maps[l := Contents(r.table.slots)], im.tables[l := r.table], n + 3,
                        Undef);
    }
  }

  // Two operands, loaded one after the other.
  lemma LoadTwo(c: Setting, k: nat, m: Store, code: seq<Instr>, pc: nat, im: IrStore, n: nat,
                a: Operand, aTag: TypeTag, b: Operand, bTag: TypeTag) returns (im': IrStore)
    requires c.After(k) == IrRunning(code, pc, im) && StoreMatch(c.p, m, im)
    requires pc + 2 <= |code| && code[pc] == LoadOf(n, a) && code[pc + 1] == LoadOf(n + 1, b)
    requires Readable(c.p, m.frame.fn, a, aTag) && Read(m, a).Some? && !IsBalValue(aTag)
    requires Readable(c.p, m.frame.fn, b, bTag) && Read(m, b).Some? && !IsBalValue(bTag)
    ensures c.After(k + 2) == IrRunning(code, pc + 2, im') && StoreMatch(c.p, m, im') && im'.tables == im.tables
    ensures Eval(im', Tmp(n)) == ToIr(Read(m, a).value) && Eval(im', Tmp(n + 1)) == ToIr(Read(m, b).value)
    ensures HasTag(Read(m, a).value, aTag) && HasTag(Read(m, b).value, bTag)
  {
    hide IrRun, StoreMatch, LowerPackage, Readable, Read, LoadOf, HasTag, IrStep, Setting.After, ToIr;
    var im1 := LoadPlain(c, k, m, code, pc, im, n, a, aTag);
    im' := LoadPlain(c, k + 1, m, code, pc + 1, im1, n + 1, b, bTag);
  }

  // The three loads before that call.
  lemma EntryLoads(c: Setting, m: Store, lhs: Operand, key: Operand, value: Operand,
                   l: nat, k: Key, v: Int64,
                   code: seq<Instr>, pc: nat, im: IrStore, n: nat) returns (im': IrStore)
    requires c.After(0) == IrRunning(code, pc, im) && StoreMatch(c.p, m, im)
    requires Readable(c.p, m.frame.fn, lhs, MapTag) && Readable(c.p, m.frame.fn, key, StringTag)
    requires Readable(c.p, m.frame.fn, value, IntTag)
    requires Read(m, lhs) == Some(MapV(l)) && Read(m, key) == Some(StrV(k)) && Read(m, value) == Some(IntV(v))
    requires pc + 4 <= |code| && code[pc] == LoadOf(n, value) && code[pc + 1] == LoadOf(n + 1, lhs)
    requires code[pc + 2] == LoadOf(n + 2, key)
    ensures c.After(3) == IrRunning(code, pc + 3, im') && StoreMatch(c.p, m, im')
    ensures Eval(im', Tmp(n + 1)) == MapPtr(l) && Eval(im', Tmp(n + 2)) == StrPtr(k) && Eval(im', Tmp(n)) == I64(v)
  {
    hide IrRun, StoreMatch, LowerPackage, Readable, Read, LoadOf, HasTag, IrStep, Setting.After;
    var im2 := LoadTwo(c, 0, m, code, pc, im, n, value, IntTag, lhs, MapTag);
    im' := LoadPlain(c, 2, m, code, pc + 2, im2, n + 2, key, StringTag);
  }

  // Storing an entry: a MapStore, and a key-value field.
  lemma SimulateStore(c: Setting, m: Store, lhs: Operand, key: Operand, value: Operand,
                      rest: seq<Insn>, term: Terminator, code: seq<Instr>, pc: nat, im: IrStore, n: nat)
    requires c.After(0) == IrRunning(code, pc, im) && StoreMatch(c.p, m, im) && WfRest(c.p, m.frame.fn, rest, term)
    requires Readable(c.p, m.frame.fn, lhs, MapTag) && Readable(c.p, m.frame.fn, key, StringTag)
    requires Readable(c.p, m.frame.fn, value, IntTag)
    requires pc + 4 <= |code| && code[pc..pc + 4] == LowerStore(lhs, key, value, n)
    requires code[pc + 4..] == Lowered(c.p, m.frame.fn, rest, Some(term), n + 4)
    ensures Reaches(c, 4, Resume(StoreEntry(m, Read(m, lhs), Read(m, key), Read(m, value)), rest, term))
  {
    hide IrRun, StoreMatch, Lowered, WfRest, LoadOf, Match, LowerPackage, Readable, Reaches, Read;
    if StoreEntry(m, Read(m, lhs), Read(m, key), Read(m, value)).Some? {
      var l, k, v := Read(m, lhs).value.loc, Read(m, key).value.s, Read(m, value).value.n;
      Window(code, pc, LowerStore(lhs, key, value, n));
      var im3 := EntryLoads(c, m, lhs, key, value, l, k, v, code, pc, im, n);
      var im4 := InsertStep(c, m, code, pc + 3, im3, n, l, k, v);
      var maps := WithEntry(m.maps, l, k, v);
      if c.After(4).IrExhausted? {
        ReachesExhausted(c, 4, Running(m.(maps := maps), rest, term));
      } else {
        ReachesRest(c, 4, m.(maps := maps), rest, term, code, pc + 4, im4, n + 4);
      }
    } else {
      ReachesStuck(c, 4);
    }
  }

  // The call that merges one mapping into another.
  lemma SpreadStep(c: Setting, m: Store, code: seq<Instr>, pc: nat, im: IrStore, n: nat, l: nat, s: nat)
    returns (im': IrStore)
    requires c.After(2) == IrRunning(code, pc, im) && StoreMatch(c.p, m, im)
    requires pc < |code| && code[pc] == CallRt(n + 2, MapSpreadFn, [Tmp(n), Tmp(n + 1)])
    requires l < |m.maps| == |im.tables| && s < |m.maps| && SpreadAgrees(im.tables[l], im.tables[s])
    requires Eval(im, Tmp(n)) == MapPtr(l) && Eval(im, Tmp(n + 1)) == MapPtr(s)
    ensures c.After(3).IrExhausted? ||
      (c.After(3) == IrRunning(code, pc + 1, im') && StoreMatch(c.p, m.(maps := WithMerge(m.maps, l, s)), im'))
  {
    hide IrRun, StoreMatch, LowerPackage, MapsMatch, Spread, HashTableRuns.SkippedAgree, HashTableRuns.TooManyKeys,
      Valid, Contents;
    assert EvalAll(im, [Tmp(n), Tmp(n + 1)]) == [MapPtr(l), MapPtr(s)];
    StoreHasTables(c.p, m, im);
    TableHasSlots(m.maps, im.tables, l);
    TableHasSlots(m.maps, im.tables, s);
    SpreadFaithfulIff(im.tables[l], im.tables[s]);
    NextStep(c, 2);
    var r := Spread(im.tables[l], im.tables[s]);
    im' := im;
    if r.Ok? {
      TableReplaced(m.maps, im.tables, l, r.table);
      im' := TablesStep(c, 2, m, code, pc, im, m.maps[l := Contents(r.table.slots)], im.tables[l := r.table], n + 2,
                        Undef);
    }
  }

  lemma SimulateSpread(c: Setting, m: Store, lhs: Operand, expr: Operand,
                       rest: seq<Insn>, term: Terminator, code: seq<Instr>, pc: nat, im: IrStore, n: nat)
    requires Poised(c, m, FieldInit(lhs, SpreadField(expr)), rest, term, code, pc, im, n)
    requires IsMap(m, Read(m, lhs)) && IsMap(m, Read(m, expr)) && |m.maps| == |im.tables|
    requires SpreadAgrees(im.tables[Read(m, lhs).value.loc], im.tables[Read(m, expr).value.loc])
    ensures Reaches(c, 3, ExecInsn(c.p, c.env.bir, m, FieldInit(lhs, SpreadField(expr)), rest, term))
  {
    hide IrRun, StoreMatch, Lowered, WfRest, TagOf, VarOf, IsMainResult, RefOf, Match, LowerPackage, SpreadAgrees,
      Reaches;
    var i := FieldInit(lhs, SpreadField(expr));
    Window(code, pc, LowerInsn(c.p, m.frame.fn, i, n));
    var l, s := Read(m, lhs).value.loc, Read(m, expr).value.loc;
    var im2 := LoadTwo(c, 0, m, code, pc, im, n, lhs, MapTag, expr, MapTag);
    var im3 := SpreadStep(c, m, code, pc + 2, im2, n, l, s);
    var maps := WithMerge(m.maps, l, s);
    if c.After(3).IrExhausted? {
      ReachesExhausted(c, 3, Running(m.(maps := maps), rest, term));
    } else {
      ReachesRest(c, 3, m.(maps := maps), rest, term, code, pc + 3, im3, n + 3);
    }
  }

  // The seven instructions of a mapping load.
  lemma MapLoadCode(c: Setting, m: Store, lhs: Operand, key: Operand, rhs: Operand, rest: seq<Insn>, term: Terminator,
                    code: seq<Instr>, pc: nat, im: IrStore, n: nat)
    requires Poised(c, m, MapLoad(lhs, key, rhs), rest, term, code, pc, im, n)
    ensures c.After(0) == IrRunning(code, pc, im) && StoreMatch(c.p, m, im) && WfRest(c.p, m.frame.fn, rest, term)
    ensures Readable(c.p, m.frame.fn, rhs, MapTag) && Readable(c.p, m.frame.fn, key, StringTag)
    ensures TagOf(c.p, m.frame.fn, lhs).Some? && IsBalValue(TagOf(c.p, m.frame.fn, lhs).value)
    ensures pc + 7 <= |code| && code[pc] == Alloca(OutRef(n))
    ensures code[pc + 1] == LoadOf(n + 1, rhs) && code[pc + 2] == LoadOf(n + 2, key)
    ensures code[pc + 3] == CallLookup(n + 3, Tmp(n + 1), Tmp(n + 2), OutRef(n))
    ensures code[pc + 4] == Load(n + 4, OutRef(n)) && code[pc + 5] == CallRt(n + 5, IntToAnyFn, [Tmp(n + 4)])
    ensures code[pc + 6] == StoreTo(Tmp(n + 5), RefOf(lhs))
    ensures code[pc + 7..] == Lowered(c.p, m.frame.fn, rest, Some(term), n + 6)
  {
    hide IrRun, StoreMatch, Lowered, WfRest, TagOf, VarOf, IsMainResult, RefOf, LowerPackage;
    Window(code, pc, LowerInsn(c.p, m.frame.fn, MapLoad(lhs, key, rhs), n));
  }

  // The result cell, the table and the key.
  lemma LookupOperands(c: Setting, m: Store, lhs: Operand, key: Operand, rhs: Operand, rest: seq<Insn>,
                       term: Terminator, code: seq<Instr>, pc: nat, im: IrStore, n: nat) returns (im': IrStore)
    requires Poised(c, m, MapLoad(lhs, key, rhs), rest, term, code, pc, im, n)
    requires IsMap(m, Read(m, rhs)) && Read(m, key).Some? && Read(m, key).value.StrV?
    ensures c.After(3) == IrRunning(code, pc + 3, im') && StoreMatch(c.p, m, im')
    ensures Eval(im', Tmp(n + 1)) == MapPtr(Read(m, rhs).value.loc)
    ensures Eval(im', Tmp(n + 2)) == StrPtr(Read(m, key).value.s)
    ensures Fetch(im', OutRef(n)) == Some(Undef)
  {
    hide IrRun, StoreMatch, Lowered, WfRest, TagOf, RefOf, Match, LowerPackage, Poised, Readable, IrStep;
    MapLoadCode(c, m, lhs, key, rhs, rest, term, code, pc, im, n);
    var im2 := OpenCell(c, m, code, pc, im, n);
    var im3 := LoadPlain(c, 1, m, code, pc + 1, im2, n + 1, rhs, MapTag);
    im' := LoadPlain(c, 2, m, code, pc + 2, im3, n + 2, key, StringTag);
  }

  // A load through a fresh result cell, then boxing. The key must be present: the
  // emitted code does not look at the answer of the lookup.
  lemma SimulateMapLoad(c: Setting, m: Store, lhs: Operand, key: Operand, rhs: Operand,
                        rest: seq<Insn>, term: Terminator, code: seq<Instr>, pc: nat, im: IrStore, n: nat)
    requires Poised(c, m, MapLoad(lhs, key, rhs), rest, term, code, pc, im, n)
    requires IsMap(m, Read(m, rhs)) && Read(m, key).Some? && Read(m, key).value.StrV?
    requires Read(m, key).value.s in m.maps[Read(m, rhs).value.loc]
    ensures Reaches(c, 7, ExecInsn(c.p, c.env.bir, m, MapLoad(lhs, key, rhs), rest, term))
  {
    hide IrRun, StoreMatch, Lowered, WfRest, TagOf, RefOf, Match, LowerPackage, Reaches, Poised, Readable, IrStep,
      Fetch;
    var im4 := LookupOperands(c, m, lhs, key, rhs, rest, term, code, pc, im, n);
    MapLoadCode(c, m, lhs, key, rhs, rest, term, code, pc, im, n);
    var v := m.maps[Read(m, rhs).value.loc][Read(m, key).value.s];
    var im5 := LookupStep(c, m, code, pc + 3, im4, n, Read(m, rhs).value.loc, Read(m, key).value.s, v);
    var im6 := LoadCell(c, 4, m, code, pc + 4, im5, n + 4, OutRef(n), I64(v));
    SimulateBoxing(c, m, lhs, TagOf(c.p, m.frame.fn, lhs).value, v, rest, term, code, pc + 5, im6, n);
  }

  // When the key is absent, the emitted code boxes a cell that was never written;
  // the language yields nil.
  lemma AbsentKeyIsUndefined(c: Setting, m: Store, lhs: Operand, key: Operand, rhs: Operand,
                             rest: seq<Insn>, term: Terminator, code: seq<Instr>, pc: nat, im: IrStore, n: nat)
    requires Poised(c, m, MapLoad(lhs, key, rhs), rest, term, code, pc, im, n)
    requires IsMap(m, Read(m, rhs)) && Read(m, key).Some? && Read(m, key).value.StrV?
    requires Read(m, key).value.s !in m.maps[Read(m, rhs).value.loc]
    ensures c.After(6) == IrStuck
    ensures ExecInsn(c.p, c.env.bir, m, MapLoad(lhs, key, rhs), rest, term) == Running(Write(m, lhs, NilV), rest, term)
  {
    hide IrRun, StoreMatch, Lowered, WfRest, TagOf, RefOf, Match, LowerPackage, Poised, Readable, IrStep, Fetch;
    var im4 := LookupOperands(c, m, lhs, key, rhs, rest, term, code, pc, im, n);
    MapLoadCode(c, m, lhs, key, rhs, rest, term, code, pc, im, n);
    var im5 := LookupMisses(c, m, code, pc + 3, im4, n, Read(m, rhs).value.loc, Read(m, key).value.s);
    var im6 := LoadCell(c, 4, m, code, pc + 4, im5, n + 4, OutRef(n), Undef);
    ConversionStep(c, 5, code, pc + 5, im6, n + 5, IntToAnyFn, Tmp(n + 4));
  }

  lemma LookupMisses(c: Setting, m: Store, code: seq<Instr>, pc: nat, im: IrStore, n: nat, l: nat, k: Key)
    returns (im': IrStore)
    requires c.After(3) == IrRunning(code, pc, im) && StoreMatch(c.p, m, im)
    requires pc < |code| && code[pc] == CallLookup(n + 3, Tmp(n + 1), Tmp(n + 2), OutRef(n))
    requires l < |m.maps| && k !in m.maps[l]
    requires Eval(im, Tmp(n + 1)) == MapPtr(l) && Eval(im, Tmp(n + 2)) == StrPtr(k)
    ensures c.After(4) == IrRunning(code, pc + 1, im') && StoreMatch(c.p, m, im')
    ensures Fetch(im', OutRef(n)) == Fetch(im, OutRef(n))
  {
    hide IrRun, StoreMatch, LowerPackage, Lookup, MapsMatch, Valid, Contents;
    StoreHasTables(c.p, m, im);
    TableHasSlots(m.maps, im.tables, l);
    LookupRefines(im.tables[l], k);
    im' := ComputeStep(c, 3, m, code, pc, im, n + 3, I8(0));
  }

  lemma OpenCell(c: Setting, m: Store, code: seq<Instr>, pc: nat, im: IrStore, n: nat) returns (im': IrStore)
    requires c.After(0) == IrRunning(code, pc, im) && StoreMatch(c.p, m, im)
    requires pc < |code| && code[pc] == Alloca(OutRef(n))
    ensures c.After(1) == IrRunning(code, pc + 1, im') && StoreMatch(c.p, m, im')
    ensures Fetch(im', OutRef(n)) == Some(Undef)
  {
    hide IrRun, StoreMatch, LowerPackage;
    NextStep(c, 0);
    im' := Assign(im, OutRef(n), Undef);
    ScratchMatch(c.p, m, im, im'.frame.tmps, im'.frame.outs);
  }

  lemma LookupStep(c: Setting, m: Store, code: seq<Instr>, pc: nat, im: IrStore, n: nat, l: nat, k: Key, v: Int64)
    returns (im': IrStore)
    requires c.After(3) == IrRunning(code, pc, im) && StoreMatch(c.p, m, im)
    requires pc < |code| && code[pc] == CallLookup(n + 3, Tmp(n + 1), Tmp(n + 2), OutRef(n))
    requires l < |m.maps| && k in m.maps[l] && m.maps[l][k] == v
    requires Eval(im, Tmp(n + 1)) == MapPtr(l) && Eval(im, Tmp(n + 2)) == StrPtr(k)
    ensures c.After(4) == IrRunning(code, pc + 1, im') && StoreMatch(c.p, m, im')
    ensures Fetch(im', OutRef(n)) == Some(I64(v))
  {
    hide IrRun, StoreMatch, LowerPackage, Lookup, MapsMatch, Valid, Contents;
    NextStep(c, 3);
    StoreHasTables(c.p, m, im);
    TableHasSlots(m.maps, im.tables, l);
    LookupRefines(im.tables[l], k);
    var mid := Assign(im, OutRef(n), I64(v));
    im' := SetTmp(mid, n + 3, I8(1));
    ScratchMatch(c.p, m, im, im'.frame.tmps, im'.frame.outs);
  }

  lemma SimulateBoxing(c: Setting, m: Store, lhs: Operand, tag: TypeTag, v: Int64,
                       rest: seq<Insn>, term: Terminator, code: seq<Instr>, pc: nat, im: IrStore, n: nat)
    requires c.After(5) == IrRunning(code, pc, im) && StoreMatch(c.p, m, im) && WfRest(c.p, m.frame.fn, rest, term)
    requires pc + 2 <= |code| && code[pc] == CallRt(n + 5, IntToAnyFn, [Tmp(n + 4)])
    requires code[pc + 1] == StoreTo(Tmp(n + 5), RefOf(lhs))
    requires Writable(c.p, m.frame.fn, lhs, tag) && IsBalValue(tag) && Eval(im, Tmp(n + 4)) == I64(v)
    requires code[pc + 2..] == Lowered(c.p, m.frame.fn, rest, Some(term), n + 6)
    ensures Reaches(c, 7, Running(Write(m, lhs, IntV(v)), rest, term))
  {
    hide IrRun, StoreMatch, Lowered, WfRest, RefOf, Match, LowerPackage, CallConversion, Extends, AnyMatch, Writable,
      IrStep;
    WrapFaithful(c.env, im, IntToAnyFn, IntV(v));
    ConversionStep(c, 5, code, pc, im, n + 5, IntToAnyFn, Tmp(n + 4));
    var r := CallConversion(c.env, im, IntToAnyFn, I64(v));
    if r.RtReturns? {
      var im1 := BoxStep(c, 5, m, code, pc, im, n + 5, r.m.heap, r.v);
      var im2 := StoreStep(c, 6, m, code, pc + 1, im1, Tmp(n + 5), lhs, tag, IntV(v));
      ReachesRest(c, 7, Write(m, lhs, IntV(v)), rest, term, code, pc + 2, im2, n + 6);
    } else {
      ReachesExhausted(c, 6, Running(Write(m, lhs, IntV(v)), rest, term));
      ReachesEnd(c, 6, 7, Running(Write(m, lhs, IntV(v)), rest, term));
    }
  }
}

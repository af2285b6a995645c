// What the emitted code of a mapping constructor leaves in the tables of the
// runtime: the left-to-right fold of its initialisers, for every list of them.
module Constructors {
  import opened Options
  import opened Words
  import opened HashTable
  import opened HashTableRuns
  import opened Ir
  import opened Bir
  import opened Lowering
  import opened Matching
  import opened Simulation
  import opened MapSimulation
  import opened Correctness

  // ----- The calls on the tables -----

  // An initialiser with its operands evaluated.
  datatype Init = PutEntry(k: Key, v: Int64) | SpreadTable(src: nat)

  // One call, on table l; `full` is the merge that would scan every slot.
  function RunInit(tables: seq<Table>, l: nat, i: Init, full: bool): Outcome
    requires l < |tables| && |tables[l].slots| > 0 && (i.SpreadTable? ==> i.src < |tables|)
  {
    match i
    case PutEntry(k, v) => Insert(tables[l], k, v)
    case SpreadTable(s) =>
      var src := tables[s];
      if full then SpreadUpTo(tables[l], src, |src.slots|) else Spread(tables[l], src)
  }

  predicate SourcesExist(tables: seq<Table>, inits: seq<Init>) {
    forall j :: 0 <= j < |inits| && inits[j].SpreadTable? ==> inits[j].src < |tables|
  }

  function RunInits(tables: seq<Table>, l: nat, inits: seq<Init>, full: bool): Outcome
    requires l < |tables| && SourcesExist(tables, inits)
    decreases |inits|
  {
    if inits == [] then Ok(tables[l])
    else if |tables[l].slots| == 0 then Shrinking
    else
      match RunInit(tables, l, inits[0], full)
      case Ok(t) => RunInits(tables[l := t], l, inits[1..], full)
      case e => e
  }

  // ----- The fold on finite maps -----

  datatype Folded = Left(entries: map<Key, Int64>) | EmptySource | TooMany

  // The entries of a source that are visited: those in the slots below its count as
  // the runtime is written, and all in a full scan. A table spread into itself adds
  // nothing.
  function Visited(tables: seq<Table>, l: nat, entries: map<Key, Int64>, s: nat, full: bool): map<Key, Int64>
    requires s < |tables|
  {
    var src := tables[s];
    if s == l then entries
    else if full || src.used > |src.slots| then Contents(src.slots)
    else Contents(src.slots[..src.used])
  }

  function SourceSize(tables: seq<Table>, l: nat, entries: map<Key, Int64>, s: nat): nat
    requires s < |tables|
  {
    if s == l then |entries| else |Contents(tables[s].slots)|
  }

  function FoldInit(tables: seq<Table>, l: nat, entries: map<Key, Int64>, i: Init, full: bool): Folded
    requires i.SpreadTable? ==> i.src < |tables|
  {
    match i
    case PutEntry(k, v) =>
      var e := entries[k := v];
      if |e| >= Capacity(TWO_63) then TooMany else Left(e)
    case SpreadTable(s) =>
      var e := entries + Visited(tables, l, entries, s, full);
      if SourceSize(tables, l, entries, s) == 0 then EmptySource
      else if |entries| + SourceSize(tables, l, entries, s) > Capacity(TWO_63) || |e| >= Capacity(TWO_63) then TooMany
      else Left(e)
  }

  // From left to right; the first initialiser that fails decides.
  function FoldInits(tables: seq<Table>, l: nat, entries: map<Key, Int64>, inits: seq<Init>, full: bool): Folded
    requires SourcesExist(tables, inits)
    decreases |inits|
  {
    if inits == [] then Left(entries)
    else
      assert inits[0].SpreadTable? ==> inits[0].src < |tables|;
      match FoldInit(tables, l, entries, inits[0], full)
      case Left(e) => FoldInits(tables, l, e, inits[1..], full)
      case f => f
  }

  ghost predicate AllValid(tables: seq<Table>) {
    forall j :: 0 <= j < |tables| ==> Valid(tables[j])
  }

  // The outcome of calls on tables stands for the fold: its map, the abort on an
  // empty source, or the overflow.
  ghost predicate StandsFor(o: Outcome, f: Folded) {
    match f
    case Left(e) => o.Ok? && Valid(o.table) && Contents(o.table.slots) == e
    case EmptySource => o.Shrinking?
    case TooMany => o.CapacityOverflow?
  }

  lemma SelfAddsNothing(t: Table, bound: nat)
    requires Distinct(t.slots) && bound <= |t.slots|
    ensures Contents(t.slots) + Contents(t.slots[..bound]) == Contents(t.slots)
  {
    LowContents(t.slots, bound);
  }

  lemma InitFolds(tables: seq<Table>, l: nat, i: Init, full: bool)
    requires AllValid(tables) && l < |tables| && (i.SpreadTable? ==> i.src < |tables|)
    ensures |tables[l].slots| > 0
    ensures StandsFor(RunInit(tables, l, i, full), FoldInit(tables, l, Contents(tables[l].slots), i, full))
  {
    hide Capacity, Insert, SpreadUpTo;
    var t := tables[l];
    SizeFacts(|t.slots|);
    match i
    case PutEntry(k, v) =>
      InsertRefines(t, k, v);
      InsertOverflowsIff(t, k, v);
    case SpreadTable(s) =>
      var src := tables[s];
      SizeFacts(|src.slots|);
      UsedIsSize(t);
      UsedIsSize(src);
      var bound := if full then |src.slots| else src.used;
      SpreadScansUsed(t, src);
      SpreadRefines(t, src, bound);
      assert src.slots[..|src.slots|] == src.slots;
      if s == l {
        SelfAddsNothing(t, bound);
        assert Contents(t.slots) + Contents(t.slots) == Contents(t.slots);
      }
  }

  // The calls of a constructor, in order, leave exactly the fold of its
  // initialisers, as the runtime is written and with a full scan alike.
  lemma {:induction false} InitsFold(tables: seq<Table>, l: nat, inits: seq<Init>, full: bool)
    requires AllValid(tables) && l < |tables| && SourcesExist(tables, inits)
    ensures StandsFor(RunInits(tables, l, inits, full), FoldInits(tables, l, Contents(tables[l].slots), inits, full))
    decreases |inits|
  {
    hide Valid, RunInit, FoldInit;
    if inits != [] {
      InitFolds(tables, l, inits[0], full);
      var o := RunInit(tables, l, inits[0], full);
      if o.Ok? {
        var tables' := tables[l := o.table];
        InitsFold(tables', l, inits[1..], full);
        OthersUnchanged(tables, tables', l, Contents(o.table.slots), inits[1..], full);
      }
    }
  }

  lemma OneUnchanged(tables: seq<Table>, tables': seq<Table>, l: nat, entries: map<Key, Int64>, i: Init, full: bool)
    requires l < |tables| == |tables'| && tables' == tables[l := tables'[l]] && (i.SpreadTable? ==> i.src < |tables|)
    ensures FoldInit(tables', l, entries, i, full) == FoldInit(tables, l, entries, i, full)
  {
    hide Capacity, Contents;
  }

  // The fold looks at the other tables only.
  lemma {:induction false} OthersUnchanged(tables: seq<Table>, tables': seq<Table>, l: nat, entries: map<Key, Int64>,
                                           inits: seq<Init>, full: bool)
    requires l < |tables| == |tables'| && tables' == tables[l := tables'[l]] && SourcesExist(tables, inits)
    ensures FoldInits(tables', l, entries, inits, full) == FoldInits(tables, l, entries, inits, full)
    decreases |inits|
  {
    hide FoldInit;
    if inits != [] {
      var f := FoldInit(tables, l, entries, inits[0], full);
      OneUnchanged(tables, tables', l, entries, inits[0], full);
      if f.Left? {
        OthersUnchanged(tables, tables', l, f.entries, inits[1..], full);
      }
    }
  }

  // ----- The emitted code -----

  function InitOf(im: IrStore, field: MapField): Option<Init> {
    match field
    case KeyValue(key, value) =>
      var k :- Fetch(im, RefOf(key));
      var v :- Fetch(im, RefOf(value));
      if k.StrPtr? && v.I64? then Some(PutEntry(k.s, v.n)) else None
    case SpreadField(expr) =>
      var s :- Fetch(im, RefOf(expr));
      if s.MapPtr? && s.loc < |im.tables| then Some(SpreadTable(s.loc)) else None
  }

  function InitsOf(im: IrStore, fields: seq<MapField>): (r: Option<seq<Init>>)
    ensures r.Some? ==> |r.value| == |fields| && SourcesExist(im.tables, r.value)
    decreases |fields|
  {
    if fields == [] then Some([])
    else
      var i :- InitOf(im, fields[0]);
      var rest :- InitsOf(im, fields[1..]);
      Some([i] + rest)
  }

  // The store after calls that changed table l and temporaries.
  function After(im: IrStore, l: nat, t: Table, tmps: map<nat, IrVal>): IrStore
    requires l < |im.tables|
  {
    im.(tables := im.tables[l := t], frame := im.frame.(tmps := tmps))
  }

  lemma LoadTmp(c: Setting, k: nat, code: seq<Instr>, pc: nat, im: IrStore, dst: nat, op: Operand, v: IrVal)
    requires c.After(k) == IrRunning(code, pc, im) && pc < |code| && code[pc] == LoadOf(dst, op)
    requires Fetch(im, RefOf(op)) == Some(v)
    ensures c.After(k + 1) == IrRunning(code, pc + 1, SetTmp(im, dst, v))
  {
    hide IrRun, LowerPackage, Fetch;
    NextStep(c, k);
  }

  lemma TmpsElsewhere(im: IrStore, dst: nat, v: IrVal, r: Ref)
    ensures Fetch(SetTmp(im, dst, v), r) == Fetch(im, r)
  {
  }

  // The state a call leaves, by the outcome for its table.
  ghost predicate Ends(c: Setting, k: nat, code: seq<Instr>, pc: nat, im: IrStore, l: nat, o: Outcome)
    requires l < |im.tables|
  {
    match o
    case Ok(t) => exists tmps :: c.After(k) == IrRunning(code, pc, After(im, l, t, tmps))
    case Shrinking => c.After(k) == IrAborted(im.trace)
    case CapacityOverflow => c.After(k) == IrExhausted
  }

  lemma CallEnds(c: Setting, k: nat, code: seq<Instr>, pc: nat, im: IrStore, dst: nat, fn: Runtime, args: seq<Opd>,
                 l: nat, o: Outcome)
    requires c.After(k) == IrRunning(code, pc, im) && pc < |code| && code[pc] == CallRt(dst, fn, args)
    requires l < |im.tables| && CallRuntime(c.env, im, fn, EvalAll(im, args)) == TableResult(im, l, o)
    ensures Ends(c, k + 1, code, pc + 1, im, l, o)
  {
    hide IrRun, LowerPackage, CallRuntime;
    NextStep(c, k);
    if o.Ok? {
      var tmps := im.frame.tmps[dst := Undef];
      assert c.After(k + 1) == IrRunning(code, pc + 1, After(im, l, o.table, tmps));
    }
  }

  // Temporaries do not matter to how a call ends.
  lemma EndsWithTmps(c: Setting, k: nat, code: seq<Instr>, pc: nat, im: IrStore, tmps: map<nat, IrVal>, l: nat,
                     o: Outcome)
    requires l < |im.tables| && Ends(c, k, code, pc, im.(frame := im.frame.(tmps := tmps)), l, o)
    ensures Ends(c, k, code, pc, im, l, o)
  {
    hide IrRun, LowerPackage, Setting.After;
    if o.Ok? {
      var im1 := im.(frame := im.frame.(tmps := tmps));
      var tmps' :| c.After(k) == IrRunning(code, pc, After(im1, l, o.table, tmps'));
      assert After(im1, l, o.table, tmps') == After(im, l, o.table, tmps');
    }
  }

  lemma EntryRuns(c: Setting, k: nat, lhs: Operand, key: Operand, value: Operand, code: seq<Instr>, pc: nat,
                  im: IrStore, n: nat, l: nat, q: Key, v: Int64)
    requires c.After(k) == IrRunning(code, pc, im)
    requires pc + 4 <= |code| && code[pc..pc + 4] == LowerStore(lhs, key, value, n)
    requires l < |im.tables| && |im.tables[l].slots| > 0 && Fetch(im, RefOf(lhs)) == Some(MapPtr(l))
    requires Fetch(im, RefOf(key)) == Some(StrPtr(q)) && Fetch(im, RefOf(value)) == Some(I64(v))
    ensures Ends(c, k + 4, code, pc + 4, im, l, Insert(im.tables[l], q, v))
  {
    hide IrRun, LowerPackage, Insert, Ends, Fetch, Setting.After;
    Window(code, pc, LowerStore(lhs, key, value, n));
    var im1 := SetTmp(im, n, I64(v));
    LoadTmp(c, k, code, pc, im, n, value, I64(v));
    TmpsElsewhere(im, n, I64(v), RefOf(lhs));
    TmpsElsewhere(im, n, I64(v), RefOf(key));
    var im2 := SetTmp(im1, n + 1, MapPtr(l));
    LoadTmp(c, k + 1, code, pc + 1, im1, n + 1, lhs, MapPtr(l));
    TmpsElsewhere(im1, n + 1, MapPtr(l), RefOf(key));
    var im3 := SetTmp(im2, n + 2, StrPtr(q));
    LoadTmp(c, k + 2, code, pc + 2, im2, n + 2, key, StrPtr(q));
    assert EvalAll(im3, [Tmp(n + 1), Tmp(n + 2), Tmp(n)]) == [MapPtr(l), StrPtr(q), I64(v)];
    CallEnds(c, k + 3, code, pc + 3, im3, n + 3, MapInsertFn, [Tmp(n + 1), Tmp(n + 2), Tmp(n)], l,
             Insert(im.tables[l], q, v));
    EndsWithTmps(c, k + 4, code, pc + 4, im, im3.frame.tmps, l, Insert(im.tables[l], q, v));
  }

  lemma SpreadRuns(c: Setting, k: nat, lhs: Operand, expr: Operand, code: seq<Instr>, pc: nat, im: IrStore,
                   n: nat, l: nat, s: nat)
    requires c.After(k) == IrRunning(code, pc, im)
    requires pc + 3 <= |code| && code[pc..pc + 3] == LowerField(lhs, SpreadField(expr), n)
    requires l < |im.tables| && |im.tables[l].slots| > 0 && Fetch(im, RefOf(lhs)) == Some(MapPtr(l))
    requires s < |im.tables| && |im.tables[s].slots| > 0 && Fetch(im, RefOf(expr)) == Some(MapPtr(s))
    ensures Ends(c, k + 3, code, pc + 3, im, l, Spread(im.tables[l], im.tables[s]))
  {
    hide IrRun, LowerPackage, Spread, Ends, Fetch, Setting.After;
    Window(code, pc, LowerField(lhs, SpreadField(expr), n));
    var im1 := SetTmp(im, n, MapPtr(l));
    LoadTmp(c, k, code, pc, im, n, lhs, MapPtr(l));
    TmpsElsewhere(im, n, MapPtr(l), RefOf(expr));
    var im2 := SetTmp(im1, n + 1, MapPtr(s));
    LoadTmp(c, k + 1, code, pc + 1, im1, n + 1, expr, MapPtr(s));
    assert EvalAll(im2, [Tmp(n), Tmp(n + 1)]) == [MapPtr(l), MapPtr(s)];
    var o := Spread(im.tables[l], im.tables[s]);
    CallEnds(c, k + 2, code, pc + 2, im2, n + 2, MapSpreadFn, [Tmp(n), Tmp(n + 1)], l, o);
    EndsWithTmps(c, k + 3, code, pc + 3, im, im2.frame.tmps, l, o);
  }

  lemma FieldRuns(c: Setting, k: nat, lhs: Operand, field: MapField, code: seq<Instr>, pc: nat, im: IrStore,
                  n: nat, l: nat)
    requires c.After(k) == IrRunning(code, pc, im)
    requires var a := LowerField(lhs, field, n); pc + |a| <= |code| && code[pc..pc + |a|] == a
    requires AllValid(im.tables) && l < |im.tables| && Fetch(im, RefOf(lhs)) == Some(MapPtr(l))
    requires InitOf(im, field).Some?
    ensures |im.tables[l].slots| > 0
    ensures var len := FieldTemps(field);
      |LowerField(lhs, field, n)| == len
      && Ends(c, k + len, code, pc + len, im, l, RunInit(im.tables, l, InitOf(im, field).value, false))
  {
    hide IrRun, LowerPackage, Insert, Spread, Ends, Fetch, Setting.After;
    SizeFacts(|im.tables[l].slots|);
    match field
    case KeyValue(key, value) =>
      var i := InitOf(im, field).value;
      EntryRuns(c, k, lhs, key, value, code, pc, im, n, l, i.k, i.v);
    case SpreadField(expr) =>
      var s := InitOf(im, field).value.src;
      SizeFacts(|im.tables[s].slots|);
      SpreadRuns(c, k, lhs, expr, code, pc, im, n, l, s);
  }

  // The initialisers read the same operands after any of them has run.
  lemma {:induction false} InitsKept(im: IrStore, l: nat, t: Table, tmps: map<nat, IrVal>, fields: seq<MapField>)
    requires l < |im.tables|
    ensures InitsOf(After(im, l, t, tmps), fields) == InitsOf(im, fields)
    decreases |fields|
  {
    if fields != [] {
      assert InitOf(After(im, l, t, tmps), fields[0]) == InitOf(im, fields[0]);
      InitsKept(im, l, t, tmps, fields[1..]);
    }
  }

  lemma EndedEnds(c: Setting, k: nat, k': nat, code: seq<Instr>, pc: nat, pc': nat, im: IrStore, l: nat, o: Outcome)
    requires l < |im.tables| && !o.Ok? && k <= k' && Ends(c, k, code, pc, im, l, o)
    ensures Ends(c, k', code, pc', im, l, o)
  {
    hide LowerPackage;
    IrRunSplit(c.env, LowerPackage(c.p), c.start, k, k' - k);
    IrEnded(c.env, LowerPackage(c.p), c.After(k), k' - k);
  }

  // The emitted code of the fields of a constructor runs their calls.
  lemma {:induction false} FieldsRun(c: Setting, k: nat, lhs: Operand, fields: seq<MapField>, code: seq<Instr>, pc: nat,
                                     im: IrStore, n: nat, l: nat)
    requires c.After(k) == IrRunning(code, pc, im)
    requires var a := LowerFields(lhs, fields, n); pc + |a| <= |code| && code[pc..pc + |a|] == a
    requires AllValid(im.tables) && l < |im.tables| && Fetch(im, RefOf(lhs)) == Some(MapPtr(l))
    requires InitsOf(im, fields).Some?
    ensures var len := FieldsTemps(fields);
      |LowerFields(lhs, fields, n)| == len
      && Ends(c, k + len, code, pc + len, im, l, RunInits(im.tables, l, InitsOf(im, fields).value, false))
    decreases |fields|
  {
    hide IrRun, LowerPackage, LowerField, RunInit, InitOf, Valid, Setting.After, FieldTemps;
    if fields == [] {
      assert After(im, l, im.tables[l], im.frame.tmps) == im;
    } else {
      var a, b := LowerField(lhs, fields[0], n), LowerFields(lhs, fields[1..], n + FieldTemps(fields[0]));
      assert code[pc..pc + |a|] == code[pc..pc + |a + b|][..|a|];
      assert code[pc + |a|..pc + |a| + |b|] == code[pc..pc + |a + b|][|a|..];
      FieldRuns(c, k, lhs, fields[0], code, pc, im, n, l);
      RestRuns(c, k, lhs, fields, code, pc, im, n, l);
    }
  }

  lemma {:induction false} RestRuns(c: Setting, k: nat, lhs: Operand, fields: seq<MapField>, code: seq<Instr>, pc: nat,
                                    im: IrStore, n: nat, l: nat)
    requires fields != [] && AllValid(im.tables) && l < |im.tables| && |im.tables[l].slots| > 0
    requires Fetch(im, RefOf(lhs)) == Some(MapPtr(l)) && InitsOf(im, fields).Some? && InitOf(im, fields[0]).Some?
    requires Ends(c, k + FieldTemps(fields[0]), code, pc + FieldTemps(fields[0]), im, l,
                  RunInit(im.tables, l, InitOf(im, fields[0]).value, false))
    requires var pc1, b := pc + FieldTemps(fields[0]), LowerFields(lhs, fields[1..], n + FieldTemps(fields[0]));
      pc1 + |b| <= |code| && code[pc1..pc1 + |b|] == b
    ensures |LowerFields(lhs, fields[1..], n + FieldTemps(fields[0]))| == FieldsTemps(fields[1..])
    ensures Ends(c, k + FieldsTemps(fields), code, pc + FieldsTemps(fields), im, l,
                 RunInits(im.tables, l, InitsOf(im, fields).value, false))
    decreases |fields|, 0
  {
    hide IrRun, LowerPackage, LowerField, RunInit, InitOf, Setting.After, FieldTemps, Valid, FoldInit, LowerFields;
    var k1, pc1, n1 := k + FieldTemps(fields[0]), pc + FieldTemps(fields[0]), n + FieldTemps(fields[0]);
    var i := InitOf(im, fields[0]).value;
    var inits := InitsOf(im, fields).value;
    assert inits[0] == i && inits[1..] == InitsOf(im, fields[1..]).value;
    var o := RunInit(im.tables, l, i, false);
    FieldsLength(lhs, fields[1..], n1);
    InitFolds(im.tables, l, i, false);
    hide InitsOf;
    if o.Ok? {
      var tmps :| c.After(k1) == IrRunning(code, pc1, After(im, l, o.table, tmps));
      var im1 := After(im, l, o.table, tmps);
      InitsKept(im, l, o.table, tmps, fields[1..]);
      FieldsRun(c, k1, lhs, fields[1..], code, pc1, im1, n1, l);
      EndsFrom(c, k + FieldsTemps(fields), code, pc + FieldsTemps(fields), im, tmps, l, o.table,
               RunInits(im1.tables, l, inits[1..], false));
    } else {
      EndedEnds(c, k1, k + FieldsTemps(fields), code, pc1, pc + FieldsTemps(fields), im, l, o);
    }
  }

  // Two calls on the same table, one after the other.
  lemma EndsFrom(c: Setting, k: nat, code: seq<Instr>, pc: nat, im: IrStore, tmps: map<nat, IrVal>, l: nat, t: Table,
                 o: Outcome)
    requires l < |im.tables| && Ends(c, k, code, pc, After(im, l, t, tmps), l, o)
    ensures Ends(c, k, code, pc, im, l, o)
  {
    hide IrRun, LowerPackage, Setting.After;
    if o.Ok? {
      var im1 := After(im, l, t, tmps);
      var tmps' :| c.After(k) == IrRunning(code, pc, After(im1, l, o.table, tmps'));
      assert After(im1, l, o.table, tmps') == After(im, l, o.table, tmps');
    }
  }

  lemma {:induction false} FieldsLength(lhs: Operand, fields: seq<MapField>, n: nat)
    ensures |LowerFields(lhs, fields, n)| == FieldsTemps(fields)
    decreases |fields|
  {
    if fields != [] {
      FieldsLength(lhs, fields[1..], n + FieldTemps(fields[0]));
    }
  }

  // ----- From a matched state -----

  // The operands of an initialiser, in the language.
  function ValueOf(m: Store, field: MapField): Option<Init> {
    match field
    case KeyValue(key, value) =>
      var k :- Read(m, key);
      var v :- Read(m, value);
      if k.StrV? && v.IntV? then Some(PutEntry(k.s, v.n)) else None
    case SpreadField(expr) => if IsMap(m, Read(m, expr)) then Some(SpreadTable(Read(m, expr).value.loc)) else None
  }

  function ValuesOf(m: Store, fields: seq<MapField>): (r: Option<seq<Init>>)
    ensures r.Some? ==> |r.value| == |fields|
    ensures r.Some? ==> forall j :: 0 <= j < |fields| && r.value[j].SpreadTable? ==> r.value[j].src < |m.maps|
    decreases |fields|
  {
    if fields == [] then Some([])
    else
      var i :- ValueOf(m, fields[0]);
      var rest :- ValuesOf(m, fields[1..]);
      Some([i] + rest)
  }

  lemma InitMatches(p: Package, m: Store, im: IrStore, lhs: Operand, field: MapField)
    requires StoreMatch(p, m, im) && WfField(p, m.frame.fn, lhs, field) && ValueOf(m, field).Some?
    requires |im.tables| == |m.maps|
    ensures InitOf(im, field) == ValueOf(m, field)
  {
    hide StoreMatch, TagOf, VarOf, IsMainResult, RefOf, Fetch, Read;
    match field
    case KeyValue(key, value) =>
      ReadMatch(p, m, im, key, StringTag);
      ReadMatch(p, m, im, value, IntTag);
    case SpreadField(expr) => ReadMatch(p, m, im, expr, MapTag);
  }

  lemma {:induction false} InitsMatch(p: Package, m: Store, im: IrStore, lhs: Operand, fields: seq<MapField>)
    requires StoreMatch(p, m, im) && |im.tables| == |m.maps| && ValuesOf(m, fields).Some?
    requires forall j :: 0 <= j < |fields| ==> WfField(p, m.frame.fn, lhs, fields[j])
    ensures InitsOf(im, fields) == ValuesOf(m, fields)
    decreases |fields|
  {
    hide StoreMatch, WfField, ValueOf, InitOf;
    if fields != [] {
      InitMatches(p, m, im, lhs, fields[0]);
      InitsMatch(p, m, im, lhs, fields[1..]);
    }
  }

  // What the emitted code of a constructor leaves: a new table, after the others,
  // that holds the fold; the abort; or nothing, for it ran out.
  ghost predicate Leaves(c: Setting, k: nat, code: seq<Instr>, pc: nat, im: IrStore, f: Folded) {
    match f
    case Left(e) =>
      exists im', t ::
        && c.After(k) == IrRunning(code, pc, im') && im'.tables == im.tables + [t]
        && Valid(t) && Contents(t.slots) == e && im'.heap == im.heap && im'.trace == im.trace
    case EmptySource => c.After(k) == IrAborted(im.trace)
    case TooMany => c.After(k) == IrExhausted
  }

  lemma TheFieldsCode(c: Setting, m: Store, lhs: Operand, fields: seq<MapField>, rest: seq<Insn>, term: Terminator,
                      code: seq<Instr>, pc: nat, im: IrStore, n: nat)
    requires Poised(c, m, NewMap(lhs, fields), rest, term, code, pc, im, n)
    ensures var b := LowerFields(lhs, fields, n + 1);
      pc + 2 + |b| <= |code| && code[pc + 2..pc + 2 + |b|] == b
    ensures forall j :: 0 <= j < |fields| ==> WfField(c.p, m.frame.fn, lhs, fields[j])
    ensures TagOf(c.p, m.frame.fn, lhs) == Some(MapTag) && !IsMainResult(m.frame.fn, lhs)
  {
    hide IrRun, StoreMatch, Lowered, LowerFields, WfRest, TagOf, VarOf, IsMainResult, RefOf, LowerPackage, WfField,
      FieldsTemps;
    var a := LowerInsn(c.p, m.frame.fn, NewMap(lhs, fields), n);
    var b := LowerFields(lhs, fields, n + 1);
    assert a[2..] == b;
    assert code[pc + 2..pc + |a|] == code[pc..pc + |a|][2..];
  }

  lemma TargetFetched(p: Package, m: Store, im: IrStore, lhs: Operand, l: nat)
    requires StoreMatch(p, m, im) && Readable(p, m.frame.fn, lhs, MapTag) && Read(m, lhs) == Some(MapV(l))
    ensures Fetch(im, RefOf(lhs)) == Some(MapPtr(l)) && im.trace == m.trace && AllValid(im.tables)
  {
    ReadMatch(p, m, im, lhs, MapTag);
  }

  lemma ReadCreated(m: Store, lhs: Operand)
    ensures Read(Created(m, lhs), lhs) == Some(MapV(|m.maps|)) && Created(m, lhs).frame.fn == m.frame.fn
    ensures Created(m, lhs).trace == m.trace && Created(m, lhs).maps == m.maps + [map[]]
  {
  }

  lemma CreatedIsEmpty()
    ensures Create().Ok? && Contents(Create().table.slots) == map[]
  {
    CreateIsValid();
  }

  // From any matched state, and whether or not its spreads are faithful, the emitted
  // code of a mapping constructor leaves the fold of its initialisers as the runtime
  // is written.
  lemma EmittedConstructor(c: Setting, m: Store, lhs: Operand, fields: seq<MapField>, rest: seq<Insn>, term: Terminator)
    requires Match(c.p, Running(m, [NewMap(lhs, fields)] + rest, term), c.start)
      && ValuesOf(Created(m, lhs), fields).Some?
    ensures c.start.IrRunning? && |c.start.store.tables| == |m.maps| && Create().Ok?
    ensures var im, k := c.start.store, 2 + FieldsTemps(fields);
      var tables := im.tables + [Create().table];
      Leaves(c, k, c.start.code, c.start.pc + k, im,
             FoldInits(tables, |im.tables|, map[], ValuesOf(Created(m, lhs), fields).value, false))
  {
    hide IrRun, LowerPackage, Setting.After, StoreMatch, Poised, LowerFields, Lowered, WfRest, TagOf, IsMainResult,
      WfField, Create, Valid, FoldInits, RunInits, AtCode, Created, InitsOf, ValuesOf, Fetch, RefOf, Read, FieldsTemps;
    var code, pc, im := c.start.code, c.start.pc, c.start.store;
    var all := [NewMap(lhs, fields)] + rest;
    assert all[0] == NewMap(lhs, fields) && all[1..] == rest;
    var n := MatchIsPoised(c, m, all, term, code, pc, im);
    TheFieldsCode(c, m, lhs, fields, rest, term, code, pc, im, n);
    var im2 := NewMapRuns(c, m, lhs, fields, rest, term, code, pc, im, n);
    var m2, l := Created(m, lhs), |m.maps|;
    ReadCreated(m, lhs);
    CreatedIsEmpty();
    StoreTraces(c.p, m, im);
    TargetFetched(c.p, m2, im2, lhs, l);
    InitsMatch(c.p, m2, im2, lhs, fields);
    FieldsRun(c, 2, lhs, fields, code, pc + 2, im2, n + 1, l);
    var inits := ValuesOf(m2, fields).value;
    InitsFold(im2.tables, l, inits, false);
    var k := 2 + FieldsTemps(fields);
    LeavesFold(c, k, code, pc + k, im, im2, l, RunInits(im2.tables, l, inits, false),
               FoldInits(im2.tables, l, map[], inits, false));
  }

  lemma StoreTraces(p: Package, m: Store, im: IrStore)
    requires StoreMatch(p, m, im)
    ensures m.trace == im.trace
  {
  }

  lemma LeavesFold(c: Setting, k: nat, code: seq<Instr>, pc: nat, im: IrStore, im2: IrStore, l: nat, o: Outcome,
                   f: Folded)
    requires l == |im.tables| && |im2.tables| == l + 1 && im2.tables[..l] == im.tables
    requires im2.heap == im.heap && im2.trace == im.trace
    requires Ends(c, k, code, pc, im2, l, o) && StandsFor(o, f)
    ensures Leaves(c, k, code, pc, im, f)
  {
    hide IrRun, LowerPackage, Setting.After, Valid, Contents;
    if o.Ok? {
      var tmps :| c.After(k) == IrRunning(code, pc, After(im2, l, o.table, tmps));
      assert After(im2, l, o.table, tmps).tables == im.tables + [o.table];
    }
  }

  lemma FullScanInitialises(m: Store, tables: seq<Table>, l: nat, entries: map<Key, Int64>, field: MapField)
    requires MapsMatch(m.maps, tables) && l < |tables| && ValueOf(m, field).Some?
    ensures var i := ValueOf(m, field).value;
      (i.SpreadTable? ==> i.src < |tables|)
      && var f := FoldInit(tables, l, entries, i, true);
      f.Left? ==> Initialised(m, l, entries, field) == Some(f.entries)
  {
    hide MapsMatch, Valid, Contents, Capacity, Read, Visited, SourceSize;
    SameCount(m.maps, tables);
    match field
    case KeyValue(_, _) =>
    case SpreadField(expr) => FullScanVisits(m, tables, l, entries, Read(m, expr).value.loc);
  }

  lemma FullScanVisits(m: Store, tables: seq<Table>, l: nat, entries: map<Key, Int64>, s: nat)
    requires MapsMatch(m.maps, tables) && s < |tables|
    ensures |m.maps| == |tables|
    ensures Visited(tables, l, entries, s, true) == if s == l then entries else m.maps[s]
  {
    hide Valid, Contents;
  }

  // Were every slot of a source scanned, the fold would be the merge the language
  // asks for.
  lemma {:induction false} FullScanMerges(m: Store, tables: seq<Table>, l: nat, entries: map<Key, Int64>,
                                          fields: seq<MapField>)
    requires MapsMatch(m.maps, tables) && l < |tables| && ValuesOf(m, fields).Some?
    ensures SourcesExist(tables, ValuesOf(m, fields).value)
    ensures var f := FoldInits(tables, l, entries, ValuesOf(m, fields).value, true);
      f.Left? ==> Merged(m, l, entries, fields) == Some(f.entries)
    decreases |fields|
  {
    hide MapsMatch, FoldInit, ValueOf, Initialised;
    SameCount(m.maps, tables);
    if fields != [] {
      var inits := ValuesOf(m, fields).value;
      var i := ValueOf(m, fields[0]).value;
      assert inits[0] == i && inits[1..] == ValuesOf(m, fields[1..]).value;
      FullScanInitialises(m, tables, l, entries, fields[0]);
      var f := FoldInit(tables, l, entries, i, true);
      if f.Left? {
        FullScanMerges(m, tables, l, f.entries, fields[1..]);
      }
    }
  }

  // On agreeing operands the emitted constructor follows the language's: after the
  // steps of the creation and the fields, the new mapping is the merge.
  lemma ConstructorFollows(p: Package, env: IrEnv, m: Store, t: IrState, lhs: Operand, fields: seq<MapField>,
                           rest: seq<Insn>, term: Terminator)
    requires WfPackage(p) && Match(p, Running(m, [NewMap(lhs, fields)] + rest, term), t)
    requires AgreesAlong(p, env, Running(m, [NewMap(lhs, fields)] + rest, term), t, 1 + |fields|)
    requires Merged(Created(m, lhs), |m.maps|, map[], fields).Some?
    ensures |Created(m, lhs).maps| == |m.maps| + 1
    ensures var e := Merged(Created(m, lhs), |m.maps|, map[], fields).value;
      Follows(p, env, t, Running(WithEntries(Created(m, lhs), |m.maps|, e), rest, term))
  {
    hide Match, LowerPackage, WfPackage, AgreesAlong, TotalSteps, ReachesBy, Follows, Merged, Created;
    var s := Running(m, [NewMap(lhs, fields)] + rest, term);
    var m2 := Created(m, lhs);
    ReadCreated(m, lhs);
    CreationStep(p, env.bir, m, lhs, fields, rest, term);
    var s1 := Running(m2, FieldInits(lhs, fields) + rest, term);
    assert Bir.Run(p, env.bir, s, 1 + |fields|) == Bir.Run(p, env.bir, s1, |fields|);
    ConstructorMerges(p, env.bir, m2, lhs, fields, rest, term, |m.maps|);
    RunSimulated(p, env, s, t, 1 + |fields|);
  }

  lemma CreationStep(p: Package, env: Env, m: Store, lhs: Operand, fields: seq<MapField>, rest: seq<Insn>,
                     term: Terminator)
    ensures Step(p, env, Running(m, [NewMap(lhs, fields)] + rest, term))
      == Running(Created(m, lhs), FieldInits(lhs, fields) + rest, term)
  {
    var all := [NewMap(lhs, fields)] + rest;
    assert all[0] == NewMap(lhs, fields) && all[1..] == rest;
  }
}

// The translation preserves meaning: runs of any length, loops, calls and
// recursion included.
module Correctness {
  import opened Options
  import opened Words
  import opened HashTable
  import opened Exhaustion
  import opened Ir
  import opened Bir
  import opened Lowering
  import opened Matching
  import opened Simulation
  import opened CastSimulation
  import opened MapSimulation
  import opened CallSimulation

  // ----- Where the emitted code does what the language says -----

  // The kinds of instruction whose translation is faithful on some operands only: an
  // operator (OperatorFaithfulIff, UnaryFaithfulIff), a cast out of a word
  // (UnwrapFaithfulIff), a mapping access, and a spread field (SpreadFaithfulIff).
  predicate InsnAgrees(p: Package, ar: Arithmetic, m: Store, tables: seq<Table>, i: Insn) {
    match i
    case Binary(kind, _, rhs1, rhs2) =>
      Read(m, rhs1).Some? && Read(m, rhs2).Some? ==>
        BinaryAgrees(ar, kind, Read(m, rhs1).value, Read(m, rhs2).value)
    case Unary(op, _, rhs) => Read(m, rhs).Some? ==> UnaryAgrees(ar, op, Read(m, rhs).value)
    case TypeCast(lhs, rhs) =>
      TagOf(p, m.frame.fn, lhs).Some? && Read(m, rhs).Some? ==>
        CastAgrees(TagOf(p, m.frame.fn, lhs).value, Read(m, rhs).value)
    case MapLoad(_, key, rhs) =>
      IsMap(m, Read(m, rhs)) && Read(m, key).Some? && Read(m, key).value.StrV? ==>
        Read(m, key).value.s in m.maps[Read(m, rhs).value.loc]
    case FieldInit(lhs, field) =>
      field.SpreadField? && IsMap(m, Read(m, lhs)) && IsMap(m, Read(m, field.expr)) && |tables| == |m.maps| ==>
        SpreadAgrees(tables[Read(m, lhs).value.loc], tables[Read(m, field.expr).value.loc])
    case _ => true
  }

  predicate Agrees(p: Package, env: IrEnv, s: State, t: IrState) {
    s.Running? && s.rest != [] && t.IrRunning? ==>
      InsnAgrees(p, env.bir.arith, s.store, t.store.tables, s.rest[0])
  }

  // The number of emitted instructions that one step of the package takes.
  function InsnSteps(p: Package, f: Function, i: Insn): nat {
    if i.NewMap? then 2 else |LowerInsn(p, f, i, 0)|
  }

  function TermSteps(p: Package, m: Store, term: Terminator): nat {
    match term
    case Goto(_) => 1
    case CondBranch(_, _, _) => 3
    case Call(callee, args, _, _) => CallSteps(p, callee, args)
    case Return => ReturnSteps(m)
  }

  function StepsOf(p: Package, s: State): nat {
    if !s.Running? then 0
    else if s.rest != [] then InsnSteps(p, s.store.frame.fn, s.rest[0])
    else TermSteps(p, s.store, s.term)
  }

  lemma LengthIsFixed(p: Package, f: Function, i: Insn, n: nat)
    requires !i.NewMap?
    ensures |LowerInsn(p, f, i, n)| == |LowerInsn(p, f, i, 0)|
  {
  }

  // ----- One step -----

  lemma StoreCounts(p: Package, m: Store, im: IrStore)
    requires StoreMatch(p, m, im)
    ensures |m.maps| == |im.tables|
  {
  }

  lemma InsnSimulated(c: Setting, m: Store, i: Insn, rest: seq<Insn>, term: Terminator,
                      code: seq<Instr>, pc: nat, im: IrStore, n: nat)
    requires Poised(c, m, i, rest, term, code, pc, im, n)
    requires InsnAgrees(c.p, c.env.bir.arith, m, im.tables, i)
    ensures Reaches(c, InsnSteps(c.p, m.frame.fn, i), ExecInsn(c.p, c.env.bir, m, i, rest, term))
  {
    hide IrRun, StoreMatch, Lowered, WfRest, Reaches, BinaryAgrees, UnaryAgrees, CastAgrees, SpreadAgrees, Match,
      LowerPackage;
    StoreCounts(c.p, m, im);
    if !i.NewMap? {
      LengthIsFixed(c.p, m.frame.fn, i, n);
    }
    var k := InsnSteps(c.p, m.frame.fn, i);
    match i
    case Move(lhs, rhs) => SimulateMove(c, m, lhs, rhs, rest, term, code, pc, im, n);
    case Binary(kind, lhs, rhs1, rhs2) =>
      if Read(m, rhs1).Some? && Read(m, rhs2).Some? {
        SimulateBinary(c, m, kind, lhs, rhs1, rhs2, rest, term, code, pc, im, n);
      } else {
        ReachesStuck(c, k);
      }
    case Unary(op, lhs, rhs) =>
      if Read(m, rhs).Some? {
        SimulateUnary(c, m, op, lhs, rhs, rest, term, code, pc, im, n);
      } else {
        ReachesStuck(c, k);
      }
    case ConstLoad(lhs, value) =>
      if value.NilConst? {
        SimulateNil(c, m, lhs, rest, term, code, pc, im, n);
      } else {
        ConstFaithful(m.frame.fn, lhs, value, n);
        SimulateConst(c, m, lhs, value, rest, term, code, pc, im, n);
      }
    case TypeCast(lhs, rhs) =>
      if Read(m, rhs).Some? {
        SimulateCast(c, m, lhs, rhs, rest, term, code, pc, im, n);
      } else {
        ReachesStuck(c, k);
      }
    case NewMap(lhs, fields) => SimulateNewMap(c, m, lhs, fields, rest, term, code, pc, im, n);
    case MapStore(lhs, key, rhs) => SimulateStore(c, m, lhs, key, rhs, rest, term, code, pc, im, n);
    case MapLoad(lhs, key, rhs) =>
      if IsMap(m, Read(m, rhs)) && Read(m, key).Some? && Read(m, key).value.StrV? {
        SimulateMapLoad(c, m, lhs, key, rhs, rest, term, code, pc, im, n);
      } else {
        ReachesStuck(c, k);
      }
    case FieldInit(lhs, field) => FieldSimulated(c, m, lhs, field, rest, term, code, pc, im, n);
  }

  lemma FieldSimulated(c: Setting, m: Store, lhs: Operand, field: MapField, rest: seq<Insn>, term: Terminator,
                       code: seq<Instr>, pc: nat, im: IrStore, n: nat)
    requires Poised(c, m, FieldInit(lhs, field), rest, term, code, pc, im, n)
    requires InsnAgrees(c.p, c.env.bir.arith, m, im.tables, FieldInit(lhs, field))
    requires |m.maps| == |im.tables|
    ensures Reaches(c, |LowerField(lhs, field, n)|, ExecInsn(c.p, c.env.bir, m, FieldInit(lhs, field), rest, term))
  {
    hide IrRun, StoreMatch, Lowered, WfRest, Reaches, SpreadAgrees, Match, LowerPackage;
    match field
    case SpreadField(expr) =>
      if IsMap(m, Read(m, lhs)) && IsMap(m, Read(m, expr)) {
        SimulateSpread(c, m, lhs, expr, rest, term, code, pc, im, n);
      } else {
        ReachesStuck(c, 3);
      }
    case KeyValue(key, value) => SimulateStore(c, m, lhs, key, value, rest, term, code, pc, im, n);
  }

  lemma TermSimulated(c: Setting, m: Store, term: Terminator, code: seq<Instr>, pc: nat, im: IrStore, n: nat)
    requires WfPackage(c.p) && PoisedTerm(c, m, term, code, pc, im, n)
    ensures Reaches(c, TermSteps(c.p, m, term), ExecTerm(c.p, c.env.bir, m, term))
  {
    hide IrRun, StoreMatch, Reaches, Match, LowerPackage, WfPackage, ReturnFrom, Jump, CallSteps, ReturnSteps,
      PoisedTerm;
    match term
    case Goto(next) => SimulateGoto(c, m, next, code, pc, im, n);
    case CondBranch(cond, onTrue, onFalse) => SimulateBranch(c, m, cond, onTrue, onFalse, code, pc, im, n);
    case Call(callee, args, lhs, next) =>
      if ReadAll(m, args).Some? {
        SimulateCall(c, m, callee, args, lhs, next, code, pc, im, n);
      } else {
        ReachesStuck(c, CallSteps(c.p, callee, args));
      }
    case Return => ReturnSimulated(c, m, code, pc, im, n);
  }

  lemma ReturnSimulated(c: Setting, m: Store, code: seq<Instr>, pc: nat, im: IrStore, n: nat)
    requires PoisedTerm(c, m, Return, code, pc, im, n)
    ensures Reaches(c, ReturnSteps(m), ReturnFrom(m))
  {
    hide IrRun, StoreMatch, Reaches, Match, LowerPackage, ReturnFrom;
    if IsMain(m.frame.fn) {
      SimulateMainReturn(c, m, code, pc, im, n);
    } else {
      SimulateReturn(c, m, code, pc, im, n);
    }
  }

  // One step of the package, and the steps of the emitted code that match it.
  lemma StepSimulated(c: Setting, s: State)
    requires WfPackage(c.p) && Match(c.p, s, c.start) && Agrees(c.p, c.env, s, c.start)
    ensures Reaches(c, StepsOf(c.p, s), Step(c.p, c.env.bir, s))
  {
    hide StoreMatch, AtCode, WfRest, LowerPackage, WfPackage, InsnAgrees, ExecInsn, ExecTerm, InsnSteps, TermSteps,
      IrStep;
    match s
    case Running(m, rest, term) =>
      var code, pc, im := c.start.code, c.start.pc, c.start.store;
      if rest != [] {
        var n := MatchIsPoised(c, m, rest, term, code, pc, im);
        InsnSimulated(c, m, rest[0], rest[1..], term, code, pc, im, n);
      } else {
        var n := MatchIsPoisedTerm(c, m, term, code, pc, im);
        TermSimulated(c, m, term, code, pc, im, n);
      }
    case _ =>
  }

  // ----- Runs -----

  // Along the first n steps of the package, matched step by step by the emitted
  // code, each instruction is one whose translation is faithful on its operands.
  predicate AgreesAlong(p: Package, env: IrEnv, s: State, t: IrState, n: nat)
    decreases n
  {
    n == 0 ||
    (Agrees(p, env, s, t) &&
     AgreesAlong(p, env, Step(p, env.bir, s), IrRun(env, LowerPackage(p), t, StepsOf(p, s)), n - 1))
  }

  // The number of emitted instructions that n steps of the package take.
  function TotalSteps(p: Package, env: Env, s: State, n: nat): nat
    decreases n
  {
    if n == 0 then 0 else StepsOf(p, s) + TotalSteps(p, env, Step(p, env, s), n - 1)
  }

  // After k steps the emitted code stands for s, unless on the way it got to a place
  // where memory or table capacity runs out.
  ghost predicate ReachesBy(p: Package, env: IrEnv, t: IrState, s: State, k: nat) {
    RunsOut(env, LowerPackage(p), t, k) || Match(p, s, IrRun(env, LowerPackage(p), t, k))
  }

  ghost predicate Follows(p: Package, env: IrEnv, t: IrState, s: State) {
    exists k: nat :: ReachesBy(p, env, t, s, k)
  }

  lemma {:induction false} RunReaches(p: Package, env: IrEnv, s: State, t: IrState, n: nat)
    requires WfPackage(p) && (t.IrExhausted? || Match(p, s, t)) && AgreesAlong(p, env, s, t, n)
    ensures var e := IrRun(env, LowerPackage(p), t, TotalSteps(p, env.bir, s, n));
      e.IrExhausted? || Match(p, Run(p, env.bir, s, n), e)
    decreases n
  {
    hide Match, LowerPackage, WfPackage, Step, Agrees, StepsOf, IrStep;
    var mod := LowerPackage(p);
    if t.IrExhausted? {
      IrEnded(env, mod, t, TotalSteps(p, env.bir, s, n));
    } else if n == 0 {
      NothingRun(env, mod, t);
    } else {
      StepSimulated(Setting(p, env, t), s);
      var k := StepsOf(p, s);
      var t', s' := IrRun(env, mod, t, k), Step(p, env.bir, s);
      RunReaches(p, env, s', t', n - 1);
      IrRunSplit(env, mod, t, k, TotalSteps(p, env.bir, s', n - 1));
    }
  }

  // Running out has a cause.
  lemma ExhaustionHasCause(p: Package, env: IrEnv, t: IrState, s: State, k: nat)
    requires TablesValid(t) && !t.IrExhausted?
    requires IrRun(env, LowerPackage(p), t, k).IrExhausted? || Match(p, s, IrRun(env, LowerPackage(p), t, k))
    ensures ReachesBy(p, env, t, s, k)
  {
    hide TablesValid, Match, LowerPackage, IrRun, RunsOut;
    ExhaustedIff(env, LowerPackage(p), t, k);
  }

  lemma MatchedTables(p: Package, s: State, t: IrState)
    requires Match(p, s, t) && !s.Stuck?
    ensures TablesValid(t) && !t.IrExhausted?
  {
    hide AtCode, WfRest, FrameMatch, CellsMatch, CallersMatch, Valid;
  }

  lemma {:induction false} StuckStays(p: Package, env: Env, n: nat)
    ensures Run(p, env, Stuck, n) == Stuck
    decreases n
  {
    if n > 0 {
      StuckStays(p, env, n - 1);
    }
  }

  // Whatever number of steps a package takes, its emitted code, started in a
  // matching state, reaches a matching state: the same block, each cell holding the
  // value of its variable, the same external calls, and the same result or abort.
  lemma RunSimulated(p: Package, env: IrEnv, s: State, t: IrState, n: nat)
    requires WfPackage(p) && Match(p, s, t) && AgreesAlong(p, env, s, t, n)
    ensures ReachesBy(p, env, t, Run(p, env.bir, s, n), TotalSteps(p, env.bir, s, n))
    ensures Follows(p, env, t, Run(p, env.bir, s, n))
  {
    hide LowerPackage, WfPackage, Step, AgreesAlong, StepsOf, TotalSteps, IrRun, RunsOut, TablesValid, StoreMatch,
      AtCode, WfRest;
    if s.Stuck? {
      StuckStays(p, env.bir, n);
    } else {
      RunReaches(p, env, s, t, n);
      MatchedTables(p, s, t);
      ExhaustionHasCause(p, env, t, Run(p, env.bir, s, n), TotalSteps(p, env.bir, s, n));
    }
  }

  // ----- Runs without end -----

  // A package that goes on takes any number of emitted steps: only a dropped nil
  // takes none, and a block has finitely many.
  lemma {:induction false} TakesSteps(p: Package, env: Env, s: State, j: nat) returns (n: nat)
    requires forall i: nat :: Run(p, env, s, i).Running?
    ensures TotalSteps(p, env, s, n) >= j
    decreases j, if s.Running? then |s.rest| else 0
  {
    hide LowerInsn, BinaryValue, UnaryValue, CastValue, ExecTerm, ReadAll;
    n := 0;
    if j > 0 {
      assert Run(p, env, s, 0).Running? && Run(p, env, s, 1).Running?;
      var s' := Step(p, env, s);
      var k := StepsOf(p, s);
      assert Run(p, env, s, 1) == Run(p, env, s', 0) == s';
      forall i: nat
        ensures Run(p, env, s', i).Running?
      {
        assert Run(p, env, s, i + 1).Running?;
      }
      if k == 0 {
        ZeroSteps(p, env, s);
      }
      var rest := TakesSteps(p, env, s', if j > k then j - k else 0);
      n := rest + 1;
      assert TotalSteps(p, env, s, n) == k + TotalSteps(p, env, s', rest);
    }
  }

  lemma ZeroSteps(p: Package, env: Env, s: State)
    requires s.Running? && StepsOf(p, s) == 0 && Step(p, env, s).Running?
    ensures |Step(p, env, s).rest| < |s.rest|
  {
  }

  // Nor does its emitted code end, unless it runs out.
  lemma DivergencePreserved(p: Package, env: IrEnv, s: State, t: IrState)
    requires WfPackage(p) && Match(p, s, t)
    requires forall n: nat :: Run(p, env.bir, s, n).Running? && AgreesAlong(p, env, s, t, n)
    requires forall j: nat :: !OutOfRoom(env, IrRun(env, LowerPackage(p), t, j))
    ensures forall j: nat :: IrRun(env, LowerPackage(p), t, j).IrRunning?
  {
    hide LowerPackage, WfPackage, Step, AgreesAlong, TotalSteps, IrRun, Run, OutOfRoom, StoreMatch, AtCode, WfRest;
    var mod := LowerPackage(p);
    forall j: nat
      ensures IrRun(env, mod, t, j).IrRunning?
    {
      var n := TakesSteps(p, env.bir, s, j);
      var k := TotalSteps(p, env.bir, s, n);
      RunSimulated(p, env, s, t, n);
      assert IrRun(env, mod, t, k).IrRunning?;
      if !IrRun(env, mod, t, j).IrRunning? {
        IrRunSplit(env, mod, t, j, k - j);
        IrEnded(env, mod, IrRun(env, mod, t, j), k - j);
      }
    }
  }

  // ----- Mapping constructors -----

  // The entries of mapping l after one initialiser. A mapping may spread itself.
  function Initialised(m: Store, l: nat, entries: map<Key, Int64>, field: MapField): Option<map<Key, Int64>> {
    match field
    case KeyValue(key, value) =>
      var k, v := Read(m, key), Read(m, value);
      if k.Some? && k.value.StrV? && v.Some? && v.value.IntV? then Some(entries[k.value.s := v.value.n]) else None
    case SpreadField(expr) =>
      if IsMap(m, Read(m, expr)) then
        Some(entries + if Read(m, expr).value.loc == l then entries else m.maps[Read(m, expr).value.loc])
      else None
  }

  // After all of them, from left to right: a later entry for a key wins.
  function Merged(m: Store, l: nat, entries: map<Key, Int64>, fields: seq<MapField>): Option<map<Key, Int64>>
    decreases |fields|
  {
    if fields == [] then Some(entries)
    else
      var first :- Initialised(m, l, entries, fields[0]);
      Merged(m, l, first, fields[1..])
  }

  function WithEntries(m: Store, l: nat, entries: map<Key, Int64>): Store
    requires l < |m.maps|
  {
    m.(maps := m.maps[l := entries])
  }

  // The steps of a constructor's fields leave that merge in the new mapping, and
  // nothing else changed. Their emitted code follows them by RunSimulated.
  lemma {:induction false} ConstructorMerges(p: Package, env: Env, m: Store, lhs: Operand, fields: seq<MapField>,
                                             rest: seq<Insn>, term: Terminator, l: nat)
    requires Read(m, lhs) == Some(MapV(l)) && l < |m.maps| && Merged(m, l, m.maps[l], fields).Some?
    ensures Run(p, env, Running(m, FieldInits(lhs, fields) + rest, term), |fields|)
      == Running(WithEntries(m, l, Merged(m, l, m.maps[l], fields).value), rest, term)
    decreases |fields|
  {
    var insns := FieldInits(lhs, fields) + rest;
    if fields == [] {
      assert insns == rest && m.maps[l := m.maps[l]] == m.maps;
    } else {
      var first := Initialised(m, l, m.maps[l], fields[0]).value;
      var m' := WithEntries(m, l, first);
      assert insns[0] == FieldInit(lhs, fields[0]) && insns[1..] == FieldInits(lhs, fields[1..]) + rest;
      assert Step(p, env, Running(m, insns, term)) == Running(m', insns[1..], term);
      MergedElsewhere(m, m', l, first, fields[1..]);
      ConstructorMerges(p, env, m', lhs, fields[1..], rest, term, l);
      assert m'.maps[l := Merged(m, l, first, fields[1..]).value]
        == m.maps[l := Merged(m, l, first, fields[1..]).value];
    }
  }

  // What the target holds does not matter to the initialisers.
  lemma {:induction false} MergedElsewhere(m: Store, m': Store, l: nat, entries: map<Key, Int64>, fields: seq<MapField>)
    requires l < |m.maps| == |m'.maps| && m' == WithEntries(m, l, m'.maps[l])
    ensures Merged(m, l, entries, fields) == Merged(m', l, entries, fields)
    decreases |fields|
  {
    if fields != [] {
      var first := Initialised(m, l, entries, fields[0]);
      assert first == Initialised(m', l, entries, fields[0]);
      if first.Some? {
        MergedElsewhere(m, m', l, first.value, fields[1..]);
      }
    }
  }

  // ----- Loading from a mapping and casting back -----

  // The stored integer comes back, whichever of the 64-bit values it is: boxed by
  // the load, in a variable of type any, and unboxed by the cast.
  lemma LoadThenCast(p: Package, env: IrEnv, m: Store, t: IrState, boxed: Operand, key: Operand, source: Operand,
                     lhs: Operand, rest: seq<Insn>, term: Terminator, l: nat, k: Key)
    requires WfPackage(p) && Match(p, Running(m, [MapLoad(boxed, key, source), TypeCast(lhs, boxed)] + rest, term), t)
    requires Read(m, source) == Some(MapV(l)) && Read(m, key) == Some(StrV(k))
    requires l < |m.maps| && k in m.maps[l] && TagOf(p, m.frame.fn, lhs) == Some(IntTag)
    ensures var v := IntV(m.maps[l][k]);
      Follows(p, env, t, Running(Write(Write(m, boxed, v), lhs, v), rest, term))
  {
    hide Match, LowerPackage, WfPackage, IrRun, StepsOf, TagOf, Follows;
    var insns := [MapLoad(boxed, key, source), TypeCast(lhs, boxed)] + rest;
    var s := Running(m, insns, term);
    var v := IntV(m.maps[l][k]);
    var m1 := Write(m, boxed, v);
    var s1 := Running(m1, [TypeCast(lhs, boxed)] + rest, term);
    assert insns[1..] == [TypeCast(lhs, boxed)] + rest;
    assert Step(p, env.bir, s) == s1;
    SameFunction(m, boxed, v);
    assert Read(m1, boxed) == Some(v);
    assert s1.rest[1..] == rest;
    assert Step(p, env.bir, s1) == Running(Write(m1, lhs, v), rest, term);
    var t1 := IrRun(env, LowerPackage(p), t, StepsOf(p, s));
    assert Agrees(p, env, s, t) && Agrees(p, env, s1, t1);
    var t2 := IrRun(env, LowerPackage(p), t1, StepsOf(p, s1));
    assert AgreesAlong(p, env, Step(p, env.bir, s1), t2, 0);
    assert AgreesAlong(p, env, s1, t1, 1);
    assert AgreesAlong(p, env, s, t, 2);
    RunSimulated(p, env, s, t, 2);
    assert Run(p, env.bir, s, 2) == Run(p, env.bir, s1, 1) == Run(p, env.bir, Step(p, env.bir, s1), 0);
  }

  // ----- From the start of a function -----

  lemma {:induction false} InitialGlobalsMatch(vars: seq<Variable>, x: string)
    requires DistinctNames(vars)
    ensures FindVar(vars, x).Some? ==> x in Ir.InitialGlobals(LowerGlobals(vars))
    ensures x in Bir.InitialGlobals(vars) ==>
      CellMatch(vars, {}, Bir.InitialGlobals(vars), Ir.InitialGlobals(LowerGlobals(vars)), map[], 0, x)
    decreases |vars|
  {
    if vars != [] {
      var v, tail := vars[0], vars[1..];
      assert LowerGlobals(vars)[1..] == LowerGlobals(tail);
      assert DistinctNames(tail);
      InitialGlobalsMatch(tail, x);
      if x == v.name {
        NotFound(tail, x);
      }
    }
  }

  // The arguments the emitted function gets stand for those of the package.
  predicate ArgsMatch(f: Function, vals: seq<Val>, args: seq<IrVal>) {
    && |vals| == |args| == |f.params|
    && forall i :: 0 <= i < |vals| ==> ValMatch(f.params[i].tag, vals[i], args[i], map[], 0)
  }

  function EntrySteps(f: Function): nat {
    |LowerLocals(f.localVars, 0)| + 1
  }

  // The emitted function, started on matching arguments, reaches its first block.
  lemma StartSimulated(p: Package, env: IrEnv, f: Function, vals: seq<Val>, args: seq<IrVal>)
    requires WfPackage(p) && f in p.functions && !f.isExternal && ArgsMatch(f, vals, args)
    ensures var c := Setting(p, env, StartIr(LowerPackage(p), LowerBody(p, f), args));
      Reaches(c, EntrySteps(f), Start(p, f, vals))
  {
    hide Match, ValMatch, LowerBody, Enter, Reaches, CellMatch, LowerLocals;
    var mod := LowerPackage(p);
    var c := Setting(p, env, StartIr(mod, LowerBody(p, f), args));
    var i :| 0 <= i < |p.functions| && p.functions[i] == f;
    assert WfFunction(p, p.functions[i]);
    hide WfFunction, WfBody;
    forall x: string
      ensures FindVar(p.globals, x).Some? ==> x in Ir.InitialGlobals(mod.globals)
      ensures x in Bir.InitialGlobals(p.globals) ==>
        CellMatch(p.globals, {}, Bir.InitialGlobals(p.globals), Ir.InitialGlobals(mod.globals), map[], 0, x)
    {
      InitialGlobalsMatch(p.globals, x);
    }
    var m := Store(Frame(f, map[], ENTRY_BLOCK), [], Bir.InitialGlobals(p.globals), [], []);
    var im := IrStore(IrFrame(LowerBody(p, f), [], map[], map[], map[], ENTRY_BLOCK), [],
                      Ir.InitialGlobals(mod.globals), map[], [], []);
    assert c.After(0) == EnterIr(im, LowerBody(p, f), args);
    EnterReaches(c, 0, m, f, vals, args, im);
  }

  // Meaning preservation for a whole program: run a function of a well-formed
  // package for any number of steps, and its emitted code for the steps they take;
  // the states match.
  lemma MeaningPreserved(p: Package, env: IrEnv, f: Function, vals: seq<Val>, args: seq<IrVal>, n: nat)
    requires WfPackage(p) && f in p.functions && !f.isExternal && ArgsMatch(f, vals, args)
    requires var t := StartIr(LowerPackage(p), LowerBody(p, f), args);
      AgreesAlong(p, env, Start(p, f, vals), IrRun(env, LowerPackage(p), t, EntrySteps(f)), n)
    ensures ReachesBy(p, env, StartIr(LowerPackage(p), LowerBody(p, f), args), Run(p, env.bir, Start(p, f, vals), n),
                      EntrySteps(f) + TotalSteps(p, env.bir, Start(p, f, vals), n))
    ensures Follows(p, env, StartIr(LowerPackage(p), LowerBody(p, f), args),
                    Run(p, env.bir, Start(p, f, vals), n))
  {
    hide Match, LowerPackage, LowerBody, WfPackage, ArgsMatch, AgreesAlong, Start, EntrySteps, IrRun, TotalSteps,
      RunsOut, TablesValid, ReachesBy;
    var mod := LowerPackage(p);
    var t := StartIr(mod, LowerBody(p, f), args);
    StartIsNamed(mod, LowerBody(p, f), args);
    assert !t.IrExhausted?;
    hide StartIr;
    StartSimulated(p, env, f, vals, args);
    var t1 := IrRun(env, mod, t, EntrySteps(f));
    var s := Start(p, f, vals);
    RunReaches(p, env, s, t1, n);
    var k := TotalSteps(p, env.bir, s, n);
    IrRunSplit(env, mod, t, EntrySteps(f), k);
    ExhaustionHasCause(p, env, t, Run(p, env.bir, s, n), EntrySteps(f) + k);
  }

  // The block of the emitted code is the one of the package.
  lemma SameNamedBlock(p: Package, env: IrEnv, f: Function, args: seq<IrVal>, k: nat, s: State)
    requires s.Running?
    requires Match(p, s, IrRun(env, LowerPackage(p), StartIr(LowerPackage(p), LowerBody(p, f), args), k))
    ensures var t := IrRun(env, LowerPackage(p), StartIr(LowerPackage(p), LowerBody(p, f), args), k);
      && t.IrRunning? && t.store.frame.block == s.store.frame.block
      && t.store.frame.body == LowerBody(p, s.store.frame.fn) && InNamedBlock(t.store.frame, t.code)
  {
    hide LowerPackage, IrRun, StartIr, AtCode, WfRest, CellsMatch, CallersMatch, MapsMatch, InNamedBlock;
    ControlIsNamed(env, LowerPackage(p), LowerBody(p, f), args, k);
  }

  // What an observer sees of a package that has ended: the same external calls, and
  // a result that stands for the value returned, or an abort for a panic.
  predicate Observed(s: State, t: IrState) {
    || (s.Panicked? && t == IrAborted(s.trace))
    || (s.Done? && t.IrDone? && t.trace == s.trace && ResultMatch(s.result, t.result, t.heap))
  }

  // When the package has ended, so does its emitted code, for good, unless it runs
  // out before.
  lemma FinishedRunObserved(p: Package, env: IrEnv, t: IrState, s: State, k: nat)
    requires ReachesBy(p, env, t, s, k) && (s.Done? || s.Panicked?)
    ensures RunsOut(env, LowerPackage(p), t, k) ||
      forall j: nat :: j >= k ==> Observed(s, IrRun(env, LowerPackage(p), t, j))
  {
    hide LowerPackage, IrStep, StoreMatch, RunsOut;
    var mod := LowerPackage(p);
    if !RunsOut(env, mod, t, k) {
      forall j: nat | j >= k
        ensures Observed(s, IrRun(env, mod, t, j))
      {
        IrRunSplit(env, mod, t, k, j - k);
        IrEnded(env, mod, IrRun(env, mod, t, k), j - k);
      }
    }
  }
}

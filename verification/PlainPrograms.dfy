// Packages whose translation is faithful whatever values they compute: a check on
// the instructions alone replaces the condition on the run.
module PlainPrograms {
  import opened Options
  import opened Words
  import opened Exhaustion
  import opened Ir
  import opened Bir
  import opened Lowering
  import opened Matching
  import opened Simulation
  import opened Correctness

  // No integer division or remainder, where arithmetic is checked no other integer
  // arithmetic, no inequality of floats, no cast to boolean, no mapping load and no
  // spread field.
  predicate PlainInsn(p: Package, checked: bool, f: Function, i: Insn) {
    match i
    case Binary(kind, _, rhs1, _) =>
      (kind.Div? || kind.Mod? ==> TagOf(p, f, rhs1) == Some(FloatTag))
      && (checked && (kind.Add? || kind.Sub? || kind.Mul?) ==> TagOf(p, f, rhs1) == Some(FloatTag))
      && (kind.NotEqual? ==> TagOf(p, f, rhs1) == Some(IntTag))
    case Unary(op, _, _) => checked ==> op.Not?
    case TypeCast(lhs, _) => TagOf(p, f, lhs) != Some(BooleanTag)
    case NewMap(_, fields) => forall j :: 0 <= j < |fields| ==> !fields[j].SpreadField?
    case MapLoad(_, _, _) => false
    case FieldInit(_, field) => !field.SpreadField?
    case _ => true
  }

  predicate PlainInsns(p: Package, checked: bool, f: Function, insns: seq<Insn>) {
    forall i :: 0 <= i < |insns| ==> PlainInsn(p, checked, f, insns[i])
  }

  predicate PlainFunction(p: Package, checked: bool, f: Function) {
    forall i :: 0 <= i < |f.blocks| ==> PlainInsns(p, checked, f, f.blocks[i].insns)
  }

  predicate PlainPackage(p: Package, checked: bool) {
    forall i :: 0 <= i < |p.functions| ==> PlainFunction(p, checked, p.functions[i])
  }

  predicate PlainStore(p: Package, checked: bool, m: Store) {
    && PlainFunction(p, checked, m.frame.fn)
    && forall i :: 0 <= i < |m.callers| ==> PlainFunction(p, checked, m.callers[i].frame.fn)
  }

  predicate PlainState(p: Package, checked: bool, s: State) {
    s.Running? ==> PlainStore(p, checked, s.store) && PlainInsns(p, checked, s.store.frame.fn, s.rest)
  }

  lemma JumpIsPlain(p: Package, checked: bool, m: Store, id: string)
    requires PlainStore(p, checked, m)
    ensures PlainState(p, checked, Jump(m, id))
  {
    hide PlainInsns;
    var b := FindBlock(m.frame.fn.blocks, id);
    if b.Some? {
      var i :| 0 <= i < |m.frame.fn.blocks| && m.frame.fn.blocks[i] == b.value;
      assert PlainInsns(p, checked, m.frame.fn, m.frame.fn.blocks[i].insns);
    }
  }

  lemma EnterIsPlain(p: Package, checked: bool, m: Store, f: Function, args: seq<Val>)
    requires PlainFunction(p, checked, f)
    requires forall i :: 0 <= i < |m.callers| ==> PlainFunction(p, checked, m.callers[i].frame.fn)
    ensures PlainState(p, checked, Enter(m, f, args))
  {
    hide PlainFunction, Jump, Bind;
    if f.blocks != [] {
      JumpIsPlain(p, checked, m.(frame := Frame(f, Bind(f.localVars, args), ENTRY_BLOCK)), f.blocks[0].id);
    }
  }

  lemma FoundIsPlain(p: Package, checked: bool, name: string)
    requires PlainPackage(p, checked) && FindFunction(p.functions, name).Some?
    ensures PlainFunction(p, checked, FindFunction(p.functions, name).value)
  {
    hide PlainFunction;
    var i :| 0 <= i < |p.functions| && p.functions[i] == FindFunction(p.functions, name).value;
  }

  lemma InsnKeepsPlain(p: Package, checked: bool, env: Env, m: Store, i: Insn, rest: seq<Insn>, term: Terminator)
    requires PlainStore(p, checked, m) && PlainInsn(p, checked, m.frame.fn, i)
      && PlainInsns(p, checked, m.frame.fn, rest)
    ensures PlainState(p, checked, ExecInsn(p, env, m, i, rest, term))
  {
    hide PlainFunction, BinaryValue, UnaryValue, CastValue, TagOf;
    if i.NewMap? {
      var inits := FieldInits(i.lhs, i.fields);
      assert forall j :: 0 <= j < |inits| ==> PlainInsn(p, checked, m.frame.fn, inits[j]);
    }
  }

  lemma TermKeepsPlain(p: Package, checked: bool, env: Env, m: Store, term: Terminator)
    requires PlainPackage(p, checked) && PlainStore(p, checked, m)
    ensures PlainState(p, checked, ExecTerm(p, env, m, term))
  {
    hide PlainFunction, PlainInsns, PlainPackage, Jump, Enter, ReadAll;
    match term
    case Goto(next) => JumpIsPlain(p, checked, m, next);
    case CondBranch(cond, onTrue, onFalse) =>
      JumpIsPlain(p, checked, m, onTrue);
      JumpIsPlain(p, checked, m, onFalse);
    case Call(callee, args, lhs, next) =>
      var f, vs := FindFunction(p.functions, callee), ReadAll(m, args);
      if f.Some? && vs.Some? {
        FoundIsPlain(p, checked, callee);
        if f.value.isExternal {
          var v := env.external(f.value.name, vs.value, m.trace);
          JumpIsPlain(p, checked, Write(m.(trace := m.trace + [ExternalCall(f.value.name, vs.value)]), lhs, v), next);
        } else {
          EnterIsPlain(p, checked, m.(callers := [Caller(m.frame, lhs, next)] + m.callers), f.value, vs.value);
        }
      }
    case Return => ReturnKeepsPlain(p, checked, m);
  }

  lemma ReturnKeepsPlain(p: Package, checked: bool, m: Store)
    requires PlainStore(p, checked, m)
    ensures PlainState(p, checked, ReturnFrom(m))
  {
    hide PlainFunction, PlainInsns, Jump;
    if m.callers != [] && m.frame.fn.returnVar.Some? {
      var v := Read(m, Operand(m.frame.fn.returnVar.value.name, ReturnKind));
      if v.Some? {
        var c := m.callers[0];
        JumpIsPlain(p, checked, Write(m.(frame := c.frame, callers := m.callers[1..]), c.dst, v.value), c.next);
      }
    }
  }

  lemma StepKeepsPlain(p: Package, checked: bool, env: Env, s: State)
    requires PlainPackage(p, checked) && PlainState(p, checked, s)
    ensures PlainState(p, checked, Step(p, env, s))
  {
    hide PlainInsn, ExecInsn, ExecTerm, PlainStore, PlainPackage;
    if s.Running? {
      if s.rest != [] {
        InsnKeepsPlain(p, checked, env, s.store, s.rest[0], s.rest[1..], s.term);
      } else {
        TermKeepsPlain(p, checked, env, s.store, s.term);
      }
    }
  }

  // A plain instruction, on values of its static types, is one whose translation is
  // faithful.
  lemma PlainAgrees(p: Package, env: IrEnv, s: State, t: IrState)
    requires Match(p, s, t) && PlainState(p, env.bir.arith.checked, s)
    ensures Agrees(p, env, s, t)
  {
    hide StoreMatch, AtCode, PlainStore, TagOf, CastValue;
    if s.Running? && s.rest != [] {
      var i := s.rest[0];
      assert PlainInsn(p, env.bir.arith.checked, s.store.frame.fn, i) && WfInsn(p, s.store.frame.fn, i);
      if i.Binary? && Read(s.store, i.rhs1).Some? && Read(s.store, i.rhs2).Some? {
        var tag := TagOf(p, s.store.frame.fn, i.rhs1).value;
        ReadMatch(p, s.store, t.store, i.rhs1, tag);
      }
    }
  }

  lemma {:induction false} PlainAgreesAlong(p: Package, env: IrEnv, s: State, t: IrState, n: nat)
    requires WfPackage(p) && PlainPackage(p, env.bir.arith.checked) && PlainState(p, env.bir.arith.checked, s)
    requires t.IrExhausted? || Match(p, s, t)
    ensures AgreesAlong(p, env, s, t, n)
    decreases n
  {
    hide Match, LowerPackage, WfPackage, PlainPackage, PlainState, Step, Agrees, StepsOf, IrStep;
    if n > 0 {
      StepKeepsPlain(p, env.bir.arith.checked, env.bir, s);
      if t.IrExhausted? {
        ExhaustedAgrees(p, env, s, t);
        IrEnded(env, LowerPackage(p), t, StepsOf(p, s));
      } else {
        PlainAgrees(p, env, s, t);
        StepSimulated(Setting(p, env, t), s);
      }
      PlainAgreesAlong(p, env, Step(p, env.bir, s), IrRun(env, LowerPackage(p), t, StepsOf(p, s)), n - 1);
    }
  }

  lemma ExhaustedAgrees(p: Package, env: IrEnv, s: State, t: IrState)
    requires t.IrExhausted?
    ensures Agrees(p, env, s, t)
  {
  }

  // Meaning preservation without a condition on the run.
  lemma PlainMeaningPreserved(p: Package, env: IrEnv, f: Function, vals: seq<Val>, args: seq<IrVal>, n: nat)
    requires WfPackage(p) && PlainPackage(p, env.bir.arith.checked)
    requires f in p.functions && !f.isExternal && ArgsMatch(f, vals, args)
    ensures ReachesBy(p, env, StartIr(LowerPackage(p), LowerBody(p, f), args), Run(p, env.bir, Start(p, f, vals), n),
                      EntrySteps(f) + TotalSteps(p, env.bir, Start(p, f, vals), n))
  {
    hide Match, LowerPackage, LowerBody, WfPackage, ArgsMatch, AgreesAlong, EntrySteps, StartIr, IrRun, PlainFunction,
      PlainState, Enter, ReachesBy, TotalSteps;
    StartSimulated(p, env, f, vals, args);
    var m := Store(Frame(f, map[], ENTRY_BLOCK), [], Bir.InitialGlobals(p.globals), [], []);
    EnterIsPlain(p, env.bir.arith.checked, m, f, vals);
    var t := StartIr(LowerPackage(p), LowerBody(p, f), args);
    PlainAgreesAlong(p, env, Start(p, f, vals), IrRun(env, LowerPackage(p), t, EntrySteps(f)), n);
    MeaningPreserved(p, env, f, vals, args, n);
  }

  // ----- Packages that cannot run out -----

  // No cast of an integer into a word, no entry and no load of a mapping.
  predicate RoomyInsn(p: Package, f: Function, i: Insn) {
    match i
    case TypeCast(lhs, rhs) => !(IsBalValue(StaticTag(p, f, lhs)) && StaticTag(p, f, rhs).IntTag?)
    case NewMap(_, fields) => fields == []
    case MapStore(_, _, _) => false
    case MapLoad(_, _, _) => false
    case FieldInit(_, _) => false
    case _ => true
  }

  predicate RoomyInsns(p: Package, f: Function, insns: seq<Insn>) {
    forall i :: 0 <= i < |insns| ==> RoomyInsn(p, f, insns[i])
  }

  predicate RoomyFunction(p: Package, f: Function) {
    forall i :: 0 <= i < |f.blocks| ==> RoomyInsns(p, f, f.blocks[i].insns)
  }

  predicate RoomyPackage(p: Package) {
    forall i :: 0 <= i < |p.functions| ==> RoomyFunction(p, p.functions[i])
  }

  lemma RoomyInsnIsQuiet(p: Package, f: Function, i: Insn, n: nat)
    requires RoomyInsn(p, f, i)
    ensures Quiet(LowerInsn(p, f, i, n))
  {
    hide StaticTag;
  }

  lemma TermIsQuiet(f: Function, term: Terminator, n: nat)
    ensures Quiet(LowerTerm(f, term, n))
  {
  }

  lemma {:induction false} RoomyCodeIsQuiet(p: Package, f: Function, insns: seq<Insn>, term: Option<Terminator>, n: nat)
    requires RoomyInsns(p, f, insns)
    ensures Quiet(Lowered(p, f, insns, term, n))
    decreases |insns|
  {
    hide RoomyInsn, LowerInsn, LowerTerm, InsnTemps, QuietInstr;
    if insns == [] {
      if term.Some? {
        TermIsQuiet(f, term.value, n);
      }
    } else {
      RoomyInsnIsQuiet(p, f, insns[0], n);
      RoomyCodeIsQuiet(p, f, insns[1..], term, n + InsnTemps(p, f, insns[0]));
    }
  }

  lemma {:induction false} RoomyBlocksAreQuiet(p: Package, f: Function, blocks: seq<BasicBlock>, n: nat)
    requires forall i :: 0 <= i < |blocks| ==> RoomyInsns(p, f, blocks[i].insns)
    ensures forall i :: 0 <= i < |blocks| ==> Quiet(LowerBlocks(p, f, blocks, n)[i].instrs)
    decreases |blocks|
  {
    hide RoomyInsns, Lowered, BlockTemps, Quiet;
    if blocks != [] {
      var b := blocks[0];
      var n' := n + BlockTemps(p, f, b.insns, b.terminator);
      RoomyCodeIsQuiet(p, f, b.insns, b.terminator, n);
      RoomyBlocksAreQuiet(p, f, blocks[1..], n');
      var r := LowerBlocks(p, f, blocks, n);
      forall i | 0 <= i < |blocks|
        ensures Quiet(r[i].instrs)
      {
        if i > 0 {
          assert r[i] == LowerBlocks(p, f, blocks[1..], n')[i - 1];
        }
      }
    }
  }

  lemma {:induction false} LocalsAreQuiet(vars: seq<Variable>, k: nat)
    ensures Quiet(LowerLocals(vars, k))
    decreases |vars|
  {
    if vars != [] {
      LocalsAreQuiet(vars[1..], if vars[0].kind.ArgKind? then k + 1 else k);
    }
  }

  lemma RoomyBodyIsQuiet(p: Package, f: Function)
    requires RoomyFunction(p, f)
    ensures QuietBody(LowerBody(p, f))
  {
    hide RoomyInsns, LowerBlocks, LowerLocals;
    RoomyBlocksAreQuiet(p, f, f.blocks, 0);
    LocalsAreQuiet(f.localVars, 0);
  }

  lemma RoomyPackageIsQuiet(p: Package)
    requires RoomyPackage(p)
    ensures QuietModule(LowerPackage(p))
  {
    hide RoomyFunction, QuietBody, LowerBody;
    var fs := LowerPackage(p).functions;
    forall i | 0 <= i < |fs| && fs[i].body.Some?
      ensures QuietBody(fs[i].body.value)
    {
      assert fs[i] == LowerFunction(p, p.functions[i]);
      RoomyBodyIsQuiet(p, p.functions[i]);
    }
  }

  lemma StartIsQuiet(mod: Module, body: IrBody, args: seq<IrVal>)
    requires QuietBody(body)
    ensures QuietState(StartIr(mod, body, args))
  {
  }

  // The emitted code of such a package never gets to one of the places where it
  // runs out, whatever the allocator does.
  lemma RoomyNeverRunsOut(p: Package, env: IrEnv, f: Function, args: seq<IrVal>, k: nat)
    requires RoomyPackage(p) && f in p.functions
    ensures !RunsOut(env, LowerPackage(p), StartIr(LowerPackage(p), LowerBody(p, f), args), k)
  {
    hide QuietModule, QuietBody, QuietState, StartIr, IrRun, OutOfRoom, RoomyFunction, LowerPackage, LowerBody;
    var mod := LowerPackage(p);
    var i :| 0 <= i < |p.functions| && p.functions[i] == f;
    RoomyPackageIsQuiet(p);
    RoomyBodyIsQuiet(p, f);
    StartIsQuiet(mod, LowerBody(p, f), args);
    forall j: nat | j < k
      ensures !OutOfRoom(env, IrRun(env, mod, StartIr(mod, LowerBody(p, f), args), j))
    {
      QuietHasRoom(env, mod, StartIr(mod, LowerBody(p, f), args), j);
    }
  }

  // Meaning preservation with no condition at all.
  lemma RoomyMeaningPreserved(p: Package, env: IrEnv, f: Function, vals: seq<Val>, args: seq<IrVal>, n: nat)
    requires WfPackage(p) && PlainPackage(p, env.bir.arith.checked) && RoomyPackage(p)
    requires f in p.functions && !f.isExternal && ArgsMatch(f, vals, args)
    ensures Match(p, Run(p, env.bir, Start(p, f, vals), n),
                  IrRun(env, LowerPackage(p), StartIr(LowerPackage(p), LowerBody(p, f), args),
                        EntrySteps(f) + TotalSteps(p, env.bir, Start(p, f, vals), n)))
  {
    hide Match, LowerPackage, LowerBody, WfPackage, PlainPackage, RoomyPackage, ArgsMatch, EntrySteps, StartIr, IrRun,
      TotalSteps, RunsOut, Start;
    PlainMeaningPreserved(p, env, f, vals, args, n);
    RoomyNeverRunsOut(p, env, f, args, EntrySteps(f) + TotalSteps(p, env.bir, Start(p, f, vals), n));
  }

  // ----- A package the theorem applies to -----

  const RESULT: Variable := Variable("%0", IntTag, NilTag, ReturnKind)
  const ARGUMENT: Variable := Variable("x", IntTag, NilTag, ArgKind)
  const SUM: Insn := Binary(Add, Operand("%0", ReturnKind), Operand("x", ArgKind), Operand("x", ArgKind))

  // It doubles its argument.
  const DOUBLE: Function :=
    Function("double", false, Some(RESULT), [ARGUMENT], [RESULT, ARGUMENT], [BasicBlock("bb0", [SUM], Some(Return))])

  const DOUBLES: Package := Package([], [DOUBLE])

  lemma DoublesIsPlain()
    ensures WfPackage(DOUBLES) && PlainPackage(DOUBLES, false) && RoomyPackage(DOUBLES)
  {
    var vars, args := DOUBLE.localVars, [ARGUMENT];
    assert vars[1..] == [ARGUMENT] && vars[1..][1..] == [];
    assert ArgVars([ARGUMENT]) == [ARGUMENT];
    assert ArgVars(vars) == ArgVars([ARGUMENT]);
    assert FindVar([ARGUMENT], "x") == Some(ARGUMENT);
    assert FindVar(vars, "x") == Some(ARGUMENT) && FindVar(vars, "%0") == Some(RESULT);
    assert WfInsn(DOUBLES, DOUBLE, SUM);
    assert WfBlock(DOUBLES, DOUBLE, DOUBLE.blocks[0]);
    assert WfBody(DOUBLES, DOUBLE);
  }

  // Where arithmetic is checked and twice the argument does not fit, it panics.
  lemma DoublesRuns(env: Env, v: Int64)
    ensures Run(DOUBLES, env, Start(DOUBLES, DOUBLE, [IntV(v)]), 2)
      == if env.arith.checked && !Fits(v + v) then Panicked([])
         else Done(Some(Returned(IntTag, IntV(Wrap(v + v)))), [])
  {
    hide Wrap;
    var vars := DOUBLE.localVars;
    assert vars[1..] == [ARGUMENT] && vars[1..][1..] == [];
    assert Bind([ARGUMENT], [IntV(v)]) == map["x" := IntV(v)];
    assert Bind(vars, [IntV(v)]) == map["x" := IntV(v)];
    var m := Store(Frame(DOUBLE, map["x" := IntV(v)], "bb0"), [], map[], [], []);
    var s0 := Start(DOUBLES, DOUBLE, [IntV(v)]);
    assert s0 == Running(m, [SUM], Return);
    var s1 := Step(DOUBLES, env, s0);
    assert [SUM][1..] == [];
    if !(env.arith.checked && !Fits(v + v)) {
      assert s1 == Running(Write(m, SUM.lhs, IntV(Wrap(v + v))), [], Return);
      assert Step(DOUBLES, env, s1) == Done(Some(Returned(IntTag, IntV(Wrap(v + v)))), []);
    }
    assert Run(DOUBLES, env, s0, 2) == Run(DOUBLES, env, s1, 1) == Run(DOUBLES, env, Step(DOUBLES, env, s1), 0);
  }

  // The same surroundings, with arithmetic that wraps.
  function Unchecked(env: IrEnv): IrEnv {
    env.(bir := env.bir.(arith := env.bir.arith.(checked := false)))
  }

  // Emitted code never looks at whether arithmetic is checked.
  lemma {:induction false} RunIgnoresChecking(env: IrEnv, mod: Module, t: IrState, n: nat)
    ensures IrRun(env, mod, t, n) == IrRun(Unchecked(env), mod, t, n)
    decreases n
  {
    hide IrStep;
    if n > 0 {
      StepIgnoresChecking(env, mod, t);
      RunIgnoresChecking(env, mod, IrStep(env, mod, t), n - 1);
    }
  }

  lemma StepIgnoresChecking(env: IrEnv, mod: Module, t: IrState)
    ensures IrStep(env, mod, t) == IrStep(Unchecked(env), mod, t)
  {
    hide FindIr, FindLabel, FromIrAll, CallRuntime, LookupInto, OpValue;
    if t.IrRunning? && t.pc < |t.code| {
      var m := t.store;
      match t.code[t.pc]
      case Op(_, op, a, b) => OperatorIgnoresChecking(env.bir.arith, op, Eval(m, a), Eval(m, b));
      case CallRt(_, fn, args) => CallIgnoresChecking(env, m, fn, EvalAll(m, args));
      case _ =>
    }
  }

  lemma OperatorIgnoresChecking(ar: Arithmetic, op: IrOp, x: IrVal, y: IrVal)
    ensures OpValue(ar, op, x, y) == OpValue(ar.(checked := false), op, x, y)
  {
  }

  lemma CallIgnoresChecking(env: IrEnv, m: IrStore, fn: Runtime, args: seq<IrVal>)
    ensures CallRuntime(env, m, fn, args) == CallRuntime(Unchecked(env), m, fn, args)
  {
  }

  // Its emitted code returns twice the argument, wrapped, whatever the argument and
  // the allocator, and whether or not arithmetic is checked.
  lemma EmittedCodeDoubles(env: IrEnv, v: Int64) returns (k: nat)
    ensures forall j: nat :: j >= k ==>
      EndsWith(IrRun(env, LowerPackage(DOUBLES),
                     StartIr(LowerPackage(DOUBLES), LowerBody(DOUBLES, DOUBLE), [I64(v)]), j),
               I64(Wrap(v + v)))
  {
    hide WfPackage, PlainPackage, RoomyPackage, LowerPackage, LowerBody, Run, Start, StartIr, IrRun, RunsOut, Wrap,
      Match, TotalSteps, EntrySteps;
    DoublesIsPlain();
    var wraps := Unchecked(env);
    DoublesRuns(wraps.bir, v);
    RoomyMeaningPreserved(DOUBLES, wraps, DOUBLE, [IntV(v)], [I64(v)], 2);
    k := EntrySteps(DOUBLE) + TotalSteps(DOUBLES, wraps.bir, Start(DOUBLES, DOUBLE, [IntV(v)]), 2);
    var t := StartIr(LowerPackage(DOUBLES), LowerBody(DOUBLES, DOUBLE), [I64(v)]);
    RoomyNeverRunsOut(DOUBLES, wraps, DOUBLE, [I64(v)], k);
    FinishedRunObserved(DOUBLES, wraps, t, Run(DOUBLES, wraps.bir, Start(DOUBLES, DOUBLE, [IntV(v)]), 2), k);
    forall j: nat | j >= k
      ensures EndsWith(IrRun(env, LowerPackage(DOUBLES), t, j), I64(Wrap(v + v)))
    {
      RunIgnoresChecking(env, LowerPackage(DOUBLES), t, j);
    }
  }

  predicate EndsWith(t: IrState, v: IrVal) {
    t.IrDone? && t.result == Some(v) && t.trace == []
  }
}

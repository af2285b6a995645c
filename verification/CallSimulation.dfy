// Terminators: branches, calls with their argument stores, and returns.
module CallSimulation {
  import opened Options
  import opened TaggedValues
  import opened Ir
  import opened Bir
  import opened Lowering
  import opened Matching
  import opened Simulation

  // The package is about to execute a terminator, and the emitted code its translation.
  ghost predicate PoisedTerm(c: Setting, m: Store, term: Terminator, code: seq<Instr>, pc: nat, im: IrStore, n: nat) {
    var a := LowerTerm(m.frame.fn, term, n);
    && c.After(0) == IrRunning(code, pc, im) && StoreMatch(c.p, m, im)
    && WfTerm(c.p, m.frame.fn, term)
    && pc + |a| == |code| && code[pc..pc + |a|] == a
  }

  lemma MatchIsPoisedTerm(c: Setting, m: Store, term: Terminator, code: seq<Instr>, pc: nat, im: IrStore)
    returns (n: nat)
    requires c.start == IrRunning(code, pc, im) && Match(c.p, Running(m, [], term), c.start)
    ensures PoisedTerm(c, m, term, code, pc, im, n)
  {
    hide StoreMatch, LowerTerm, Lowered, WfTerm;
    n := NextTerm(c.p, m.frame.fn, term, code, pc);
    assert code[pc..pc + |LowerTerm(m.frame.fn, term, n)|] == code[pc..];
  }

  lemma JumpStep(c: Setting, k: nat, m: Store, code: seq<Instr>, pc: nat, im: IrStore, id: string)
    requires c.After(k) == IrRunning(code, pc, im) && pc < |code| && code[pc] == Br(id)
    requires StoreMatch(c.p, m, im) && HasBlock(m.frame.fn, id)
    ensures Reaches(c, k + 1, Jump(m, id))
  {
    hide IrRun, StoreMatch, Match, LowerPackage, HasBlock;
    NextStep(c, k);
    JumpMatch(c.p, m, im, id);
  }

  lemma SimulateGoto(c: Setting, m: Store, next: string, code: seq<Instr>, pc: nat, im: IrStore, n: nat)
    requires PoisedTerm(c, m, Goto(next), code, pc, im, n)
    ensures Reaches(c, 1, ExecTerm(c.p, c.env.bir, m, Goto(next)))
  {
    hide IrRun, StoreMatch, Match, LowerPackage, HasBlock;
    Window(code, pc, LowerTerm(m.frame.fn, Goto(next), n));
    JumpStep(c, 0, m, code, pc, im, next);
  }

  lemma SimulateBranch(c: Setting, m: Store, cond: Operand, onTrue: string, onFalse: string,
                       code: seq<Instr>, pc: nat, im: IrStore, n: nat)
    requires PoisedTerm(c, m, CondBranch(cond, onTrue, onFalse), code, pc, im, n)
    ensures Reaches(c, 3, ExecTerm(c.p, c.env.bir, m, CondBranch(cond, onTrue, onFalse)))
  {
    hide IrRun, StoreMatch, Match, LowerPackage, HasBlock, RefOf, Readable, Reaches, IrStep;
    Window(code, pc, LowerTerm(m.frame.fn, CondBranch(cond, onTrue, onFalse), n));
    if Read(m, cond).Some? {
      var im1 := LoadPlain(c, 0, m, code, pc, im, n, cond, BooleanTag);
      var b := Read(m, cond).value.b;
      var im2 := OpStep(c, 1, m, code, pc + 1, im1, n + 1, CmpOp(NE), Tmp(n), Lit(I1(false)), I1(b));
      JumpOnCondition(c, 2, m, code, pc + 2, im2, Tmp(n + 1), b, onTrue, onFalse);
    } else {
      ReachesStuck(c, 3);
    }
  }

  lemma JumpOnCondition(c: Setting, k: nat, m: Store, code: seq<Instr>, pc: nat, im: IrStore,
                        o: Opd, b: bool, onTrue: string, onFalse: string)
    requires c.After(k) == IrRunning(code, pc, im) && pc < |code| && code[pc] == CondBr(o, onTrue, onFalse)
    requires StoreMatch(c.p, m, im) && HasBlock(m.frame.fn, onTrue) && HasBlock(m.frame.fn, onFalse)
    requires Eval(im, o) == I1(b)
    ensures Reaches(c, k + 1, Jump(m, if b then onTrue else onFalse))
  {
    hide IrRun, StoreMatch, Match, LowerPackage, HasBlock;
    NextStep(c, k);
    JumpMatch(c.p, m, im, if b then onTrue else onFalse);
  }

  // ----- Arguments -----

  lemma {:induction false} ReadAllEach(m: Store, ops: seq<Operand>)
    requires ReadAll(m, ops).Some?
    ensures |ReadAll(m, ops).value| == |ops|
    ensures forall i :: 0 <= i < |ops| ==> Read(m, ops[i]) == Some(ReadAll(m, ops).value[i])
    decreases |ops|
  {
    if ops != [] {
      ReadAllEach(m, ops[1..]);
      var vs, tail := ReadAll(m, ops).value, ReadAll(m, ops[1..]).value;
      forall i | 0 <= i < |ops|
        ensures Read(m, ops[i]) == Some(vs[i])
      {
        if i > 0 {
          assert ops[i] == ops[1..][i - 1] && vs[i] == tail[i - 1];
        }
      }
    }
  }

  predicate ArgLoaded(tag: TypeTag, v: Val, im: IrStore, i: nat, maps: nat) {
    i in im.frame.tmps && ValMatch(tag, v, im.frame.tmps[i], im.heap, maps)
  }

  // The temporaries from n on hold the first i arguments.
  predicate ArgsLoaded(params: seq<Variable>, vals: seq<Val>, im: IrStore, n: nat, i: nat, maps: nat)
    requires i <= |vals| && i <= |params|
  {
    forall j :: 0 <= j < i ==> ArgLoaded(params[j].tag, vals[j], im, n + j, maps)
  }

  lemma OneMoreArg(params: seq<Variable>, vals: seq<Val>, before: IrStore, im: IrStore, n: nat, i: nat, maps: nat)
    requires 0 < i <= |vals| && i <= |params| && ArgsLoaded(params, vals, before, n, i - 1, maps)
    requires n + i - 1 in im.frame.tmps && im.heap == before.heap
    requires im.frame.tmps == before.frame.tmps[n + i - 1 := im.frame.tmps[n + i - 1]]
    requires ValMatch(params[i - 1].tag, vals[i - 1], im.frame.tmps[n + i - 1], im.heap, maps)
    ensures ArgsLoaded(params, vals, im, n, i, maps)
  {
    forall j | 0 <= j < i
      ensures ArgLoaded(params[j].tag, vals[j], im, n + j, maps)
    {
      assert j < i - 1 ==> ArgLoaded(params[j].tag, vals[j], before, n + j, maps);
    }
  }

  lemma {:induction false} LoadArgs(c: Setting, m: Store, code: seq<Instr>, pc: nat, im: IrStore, n: nat,
                                    args: seq<Operand>, params: seq<Variable>, vals: seq<Val>, i: nat)
    returns (im': IrStore)
    requires c.After(0) == IrRunning(code, pc, im) && StoreMatch(c.p, m, im)
    requires i <= |args| == |params| == |vals| && pc + |args| <= |code|
    requires forall j :: 0 <= j < |args| ==> code[pc + j] == LoadOf(n + j, args[j])
    requires forall j :: 0 <= j < |args| ==> Readable(c.p, m.frame.fn, args[j], params[j].tag)
    requires forall j :: 0 <= j < |args| ==> Read(m, args[j]) == Some(vals[j])
    ensures c.After(i) == IrRunning(code, pc + i, im') && StoreMatch(c.p, m, im')
    ensures ArgsLoaded(params, vals, im', n, i, |m.maps|) && im'.heap == im.heap
    decreases i
  {
    hide IrRun, StoreMatch, LowerPackage;
    if i == 0 {
      im' := im;
    } else {
      var before := LoadArgs(c, m, code, pc, im, n, args, params, vals, i - 1);
      assert code[pc + (i - 1)] == LoadOf(n + (i - 1), args[i - 1]);
      im' := LoadStep(c, i - 1, m, code, pc + i - 1, before, n + i - 1, args[i - 1], params[i - 1].tag);
      OneMoreArg(params, vals, before, im', n, i, |m.maps|);
    }
  }

  // ----- The entry block -----

  // The cells after the entry block has run for these variables.
  function EntryCells(vars: seq<Variable>, args: seq<IrVal>, k: nat, cells: map<string, IrVal>): map<string, IrVal> {
    if vars == [] then cells
    else if vars[0].kind.ArgKind? then
      EntryCells(vars[1..], args, k + 1, cells[vars[0].name := if k < |args| then args[k] else Undef])
    else EntryCells(vars[1..], args, k, cells[vars[0].name := Undef])
  }

  function WithCells(im: IrStore, cells: map<string, IrVal>): IrStore {
    im.(frame := im.frame.(cells := cells))
  }

  // The cell of one variable is made and, for an ARG-kind one, filled.
  lemma LocalRuns(c: Setting, k: nat, code: seq<Instr>, pc: nat, im: IrStore, v: Variable, arg: nat)
    requires c.After(k) == IrRunning(code, pc, im)
    requires pc + |LowerLocals([v], arg)| <= |code|
    requires code[pc..pc + |LowerLocals([v], arg)|] == LowerLocals([v], arg)
    ensures var steps := |LowerLocals([v], arg)|;
      c.After(k + steps)
        == IrRunning(code, pc + steps, WithCells(im, EntryCells([v], im.frame.args, arg, im.frame.cells)))
  {
    hide IrRun, LowerPackage;
    assert [v][1..] == [];
    Window(code, pc, LowerLocals([v], arg));
    NextStep(c, k);
    var im1 := Assign(im, LocalRef(v.name), Undef);
    assert c.After(k + 1) == IrRunning(code, pc + 1, im1);
    if v.kind.ArgKind? {
      NextStep(c, k + 1);
      var im2 := Assign(im1, LocalRef(v.name), Eval(im1, Arg(arg)));
      assert c.After(k + 2) == IrRunning(code, pc + 2, im2);
      assert im2.frame.cells == im.frame.cells[v.name := Eval(im1, Arg(arg))];
    }
  }

  lemma {:induction false} EntryRuns(c: Setting, k: nat, code: seq<Instr>, pc: nat, im: IrStore,
                                     vars: seq<Variable>, arg: nat)
    requires c.After(k) == IrRunning(code, pc, im)
    requires pc + |LowerLocals(vars, arg)| <= |code|
    requires code[pc..pc + |LowerLocals(vars, arg)|] == LowerLocals(vars, arg)
    ensures var steps := |LowerLocals(vars, arg)|;
      c.After(k + steps)
        == IrRunning(code, pc + steps, WithCells(im, EntryCells(vars, im.frame.args, arg, im.frame.cells)))
    decreases |vars|
  {
    hide IrRun, LowerPackage, Setting.After;
    if vars != [] {
      var v := vars[0];
      var next := if v.kind.ArgKind? then arg + 1 else arg;
      var a, b := LowerLocals([v], arg), LowerLocals(vars[1..], next);
      assert [v][1..] == [];
      assert LowerLocals(vars[1..1], next) == [];
      assert LowerLocals(vars, arg) == a + b;
      Tail(code, pc, a + b, |a|, b);
      assert code[pc..pc + |a|] == code[pc..pc + |a + b|][..|a|];
      LocalRuns(c, k, code, pc, im, v, arg);
      var im1 := WithCells(im, EntryCells([v], im.frame.args, arg, im.frame.cells));
      EntryRuns(c, k + |a|, code, pc + |a|, im1, vars[1..], next);
    }
  }

  lemma Tail(code: seq<Instr>, pc: nat, a: seq<Instr>, i: nat, b: seq<Instr>)
    requires pc + |a| <= |code| && code[pc..pc + |a|] == a && i <= |a| && a[i..] == b
    ensures pc + i + |b| == pc + |a| && code[pc + i..pc + i + |b|] == b
  {
    assert code[pc + i..pc + |a|] == code[pc..pc + |a|][i..];
  }

  lemma {:induction false} OtherCells(vars: seq<Variable>, args: seq<IrVal>, k: nat, cells: map<string, IrVal>,
                                      x: string)
    requires FindVar(vars, x).None?
    ensures var r := EntryCells(vars, args, k, cells);
      (x in r <==> x in cells) && (x in cells ==> r[x] == cells[x])
    decreases |vars|
  {
    if vars != [] {
      var next := if vars[0].kind.ArgKind? then k + 1 else k;
      var v := if vars[0].kind.ArgKind? && k < |args| then args[k] else Undef;
      OtherCells(vars[1..], args, next, cells[vars[0].name := v], x);
    }
  }

  lemma {:induction false} NotFound(vars: seq<Variable>, x: string)
    requires forall i :: 0 <= i < |vars| ==> vars[i].name != x
    ensures FindVar(vars, x).None?
  {
    if vars != [] {
      NotFound(vars[1..], x);
    }
  }

  // Each variable has a cell, and the k-th ARG-kind one holds the k-th argument.
  lemma {:induction false} EntryCellsMatch(vars: seq<Variable>, vals: seq<Val>, args: seq<IrVal>, k: nat,
                                           cells: map<string, IrVal>, heap: Heap, maps: nat, x: string)
    requires DistinctNames(vars) && |vals| == |ArgVars(vars)| && k + |vals| == |args|
    requires forall i :: 0 <= i < |vals| ==> ValMatch(ArgVars(vars)[i].tag, vals[i], args[k + i], heap, maps)
    ensures var r := EntryCells(vars, args, k, cells);
      && (FindVar(vars, x).Some? ==> x in r)
      && (x in Bind(vars, vals) ==>
            && FindVar(vars, x).Some? && x in r
            && ValMatch(FindVar(vars, x).value.tag, Bind(vars, vals)[x], r[x], heap, maps))
    decreases |vars|
  {
    hide ValMatch;
    if vars != [] {
      var v, tail := vars[0], vars[1..];
      assert DistinctNames(tail);
      if v.kind.ArgKind? {
        assert ArgVars(vars) == [v] + ArgVars(tail);
        forall i | 0 <= i < |vals[1..]|
          ensures ValMatch(ArgVars(tail)[i].tag, vals[1..][i], args[k + 1 + i], heap, maps)
        {
          assert ArgVars(tail)[i] == ArgVars(vars)[i + 1];
          assert k + 1 + i == k + (i + 1);
        }
        assert ValMatch(ArgVars(vars)[0].tag, vals[0], args[k + 0], heap, maps);
        EntryCellsMatch(tail, vals[1..], args, k + 1, cells[v.name := args[k]], heap, maps, x);
      } else {
        assert ArgVars(vars) == ArgVars(tail);
        EntryCellsMatch(tail, vals, args, k, cells[v.name := Undef], heap, maps, x);
      }
      if x == v.name {
        NotFound(tail, x);
        if v.kind.ArgKind? {
          OtherCells(tail, args, k + 1, cells[v.name := args[k]], x);
        } else {
          OtherCells(tail, args, k, cells[v.name := Undef], x);
        }
      }
    }
  }

  // A new frame matches once its entry block has run.
  lemma NewFrameMatches(p: Package, f: Function, vals: seq<Val>, args: seq<IrVal>, ifr: IrFrame, heap: Heap, maps: nat)
    requires f in p.functions && !f.isExternal && WfBody(p, f)
    requires |vals| == |args| == |f.params|
    requires forall i :: 0 <= i < |vals| ==> ValMatch(f.params[i].tag, vals[i], args[i], heap, maps)
    requires ifr.body == LowerBody(p, f) && ifr.block == ENTRY_BLOCK
    requires ifr.cells == EntryCells(f.localVars, args, 0, map[])
    ensures FrameMatch(p, Frame(f, Bind(f.localVars, vals), ENTRY_BLOCK), ifr, heap, maps)
  {
    hide ValMatch, LowerBody, WfBlock;
    ArgTagsAre(f, vals, args, heap, maps);
    forall x: string
      ensures FindVar(f.localVars, x).Some? ==> x in ifr.cells
      ensures x in Bind(f.localVars, vals) ==>
        CellMatch(f.localVars, Hidden(f), Bind(f.localVars, vals), ifr.cells, heap, maps, x)
    {
      EntryCellsMatch(f.localVars, vals, args, 0, map[], heap, maps, x);
    }
  }

  lemma ArgTagsAre(f: Function, vals: seq<Val>, args: seq<IrVal>, heap: Heap, maps: nat)
    requires Tags(ArgVars(f.localVars)) == Tags(f.params) && |vals| == |args| == |f.params|
    requires forall i :: 0 <= i < |vals| ==> ValMatch(f.params[i].tag, vals[i], args[i], heap, maps)
    ensures |ArgVars(f.localVars)| == |vals|
    ensures forall i :: 0 <= i < |vals| ==> ValMatch(ArgVars(f.localVars)[i].tag, vals[i], args[0 + i], heap, maps)
  {
    hide ValMatch;
    assert |Tags(ArgVars(f.localVars))| == |Tags(f.params)|;
    forall i | 0 <= i < |vals|
      ensures ArgVars(f.localVars)[i].tag == f.params[i].tag
    {
      assert Tags(ArgVars(f.localVars))[i] == Tags(f.params)[i];
    }
  }

  // From the first instruction of a function to its first block.
  lemma EnterReaches(c: Setting, k: nat, m: Store, f: Function, vals: seq<Val>, args: seq<IrVal>, im: IrStore)
    requires f in c.p.functions && !f.isExternal && WfBody(c.p, f)
    requires |vals| == |args| == |f.params|
    requires forall i :: 0 <= i < |vals| ==> ValMatch(f.params[i].tag, vals[i], args[i], im.heap, |m.maps|)
    requires CellsMatch(c.p.globals, {}, m.globals, im.globals, im.heap, |m.maps|)
    requires CallersMatch(c.p, f, m.callers, im.callers, im.heap, |m.maps|)
    requires MapsMatch(m.maps, im.tables) && m.trace == im.trace
    requires c.After(k) == EnterIr(im, LowerBody(c.p, f), args)
    ensures Reaches(c, k + |LowerLocals(f.localVars, 0)| + 1, Enter(m, f, vals))
  {
    hide IrRun, ValMatch, CellsMatch, CallersMatch, MapsMatch, Match, LowerPackage, WfBlock, WfRest, LowerBlocks,
      LowerLocals;
    var entry := LowerEntry(f);
    var a := LowerLocals(f.localVars, 0);
    var id := f.blocks[0].id;
    assert entry == a + [Br(id)];
    var im0 := im.(frame := IrFrame(LowerBody(c.p, f), args, map[], map[], map[], ENTRY_BLOCK));
    assert entry[0..0 + |a|] == a;
    EntryRuns(c, k, entry, 0, im0, f.localVars, 0);
    var im1 := WithCells(im0, EntryCells(f.localVars, args, 0, map[]));
    NewFrameMatches(c.p, f, vals, args, im1.frame, im.heap, |m.maps|);
    var m1 := m.(frame := Frame(f, Bind(f.localVars, vals), ENTRY_BLOCK));
    assert HasBlock(f, id);
    hide FrameMatch, HasBlock, WfBody;
    assert StoreMatch(c.p, m1, im1);
    JumpStep(c, k + |a|, m1, entry, |a|, im1, id);
  }

  // ----- Calls -----

  // The code around a call, after the loads of its arguments.
  lemma CallWindow(m: Store, callee: string, args: seq<Operand>, lhs: Operand, next: string,
                   code: seq<Instr>, pc: nat, n: nat)
    requires var a := LowerTerm(m.frame.fn, Call(callee, args, lhs, next), n);
      pc + |a| == |code| && code[pc..pc + |a|] == a
    ensures pc + |args| + 3 == |code|
    ensures forall j :: 0 <= j < |args| ==> code[pc + j] == LoadOf(n + j, args[j])
    ensures code[pc + |args|] == CallFn(n + |args|, callee, TmpsFrom(n, |args|))
    ensures code[pc + |args| + 1] == StoreTo(Tmp(n + |args|), RefOf(lhs))
    ensures code[pc + |args| + 2] == Br(next)
  {
    hide LoadOf;
    var a := LowerTerm(m.frame.fn, Call(callee, args, lhs, next), n);
    var w := code[pc..pc + |a|];
    assert forall j :: 0 <= j < |w| ==> w[j] == code[pc + j];
    var k := |args|;
    assert w[k] == a[k] && w[k + 1] == a[k + 1] && w[k + 2] == a[k + 2];
    forall j | 0 <= j < k
      ensures code[pc + j] == LoadOf(n + j, args[j])
    {
      assert w[j] == a[j] == LoadsOf(n, args)[j];
    }
  }

  lemma FunctionIsWf(p: Package, name: string)
    requires WfPackage(p) && FindFunction(p.functions, name).Some?
    ensures WfFunction(p, FindFunction(p.functions, name).value)
  {
    hide WfFunction;
    var f := FindFunction(p.functions, name).value;
    var i :| 0 <= i < |p.functions| && p.functions[i] == f;
    assert WfFunction(p, p.functions[i]);
  }

  lemma SimulateCall(c: Setting, m: Store, callee: string, args: seq<Operand>, lhs: Operand, next: string,
                     code: seq<Instr>, pc: nat, im: IrStore, n: nat)
    requires WfPackage(c.p) && PoisedTerm(c, m, Call(callee, args, lhs, next), code, pc, im, n)
    requires ReadAll(m, args).Some?
    ensures Reaches(c, CallSteps(c.p, callee, args), ExecTerm(c.p, c.env.bir, m, Call(callee, args, lhs, next)))
  {
    hide IrRun, StoreMatch, Match, LowerPackage, HasBlock, Readable, Writable, Reaches, WfBody, WfExternal, WfPackage,
      ReadAll, LowerLocals, Enter, CallExternal, LoadOf;
    var g := FindFunction(c.p.functions, callee).value;
    var vals := ReadAll(m, args).value;
    ReadAllEach(m, args);
    CallWindow(m, callee, args, lhs, next, code, pc, n);
    FunctionIsWf(c.p, callee);
    var im1 := LoadArgs(c, m, code, pc, im, n, args, g.params, vals, |args|);
    if g.isExternal {
      SimulateExternal(c, |args|, m, g, vals, lhs, next, code, pc + |args|, im1, n);
    } else {
      SimulateInternal(c, |args|, m, g, vals, lhs, next, code, pc + |args|, im1, n);
    }
  }

  function CallSteps(p: Package, callee: string, args: seq<Operand>): nat {
    var g := FindFunction(p.functions, callee);
    if g.Some? && !g.value.isExternal then |args| + 1 + |LowerLocals(g.value.localVars, 0)| + 1 else |args| + 3
  }

  // The temporaries as the values a call passes.
  lemma PassedArgs(params: seq<Variable>, vals: seq<Val>, im: IrStore, n: nat, maps: nat)
    requires |vals| == |params| && ArgsLoaded(params, vals, im, n, |vals|, maps)
    ensures var ivs := EvalAll(im, TmpsFrom(n, |vals|));
      |ivs| == |vals| && forall i :: 0 <= i < |vals| ==> ValMatch(params[i].tag, vals[i], ivs[i], im.heap, maps)
  {
    hide ValMatch;
    var ivs := EvalAll(im, TmpsFrom(n, |vals|));
    forall i | 0 <= i < |vals|
      ensures ValMatch(params[i].tag, vals[i], ivs[i], im.heap, maps)
    {
      assert ArgLoaded(params[i].tag, vals[i], im, n + i, maps);
      assert ivs[i] == im.frame.tmps[n + i];
    }
  }

  lemma SimulateInternal(c: Setting, k: nat, m: Store, g: Function, vals: seq<Val>, lhs: Operand, next: string,
                         code: seq<Instr>, pc: nat, im: IrStore, n: nat)
    requires c.After(k) == IrRunning(code, pc, im) && StoreMatch(c.p, m, im) && |vals| == |g.params| == k
    requires FindFunction(c.p.functions, g.name) == Some(g) && !g.isExternal && WfBody(c.p, g)
    requires !IsMain(g) && g.returnVar.Some?
    requires ArgsLoaded(g.params, vals, im, n, k, |m.maps|)
    requires pc + 3 == |code| && code[pc] == CallFn(n + k, g.name, TmpsFrom(n, k))
    requires code[pc + 1] == StoreTo(Tmp(n + k), RefOf(lhs)) && code[pc + 2] == Br(next)
    requires Writable(c.p, m.frame.fn, lhs, g.returnVar.value.tag) && HasBlock(m.frame.fn, next)
    ensures Reaches(c, k + 1 + |LowerLocals(g.localVars, 0)| + 1,
                    Enter(m.(callers := [Caller(m.frame, lhs, next)] + m.callers), g, vals))
  {
    hide IrRun, Match, HasBlock, Reaches, LowerLocals, Enter, ValMatch, WfBody, FrameMatch, CellsMatch, MapsMatch,
      LowerBody, ArgsLoaded;
    FindLowered(c.p, c.p.functions, g.name);
    PassedArgs(g.params, vals, im, n, |m.maps|);
    var ivs := EvalAll(im, TmpsFrom(n, k));
    NextStep(c, k);
    var m' := m.(callers := [Caller(m.frame, lhs, next)] + m.callers);
    var im' := im.(callers := [IrCaller(im.frame, n + k, code, pc + 1)] + im.callers);
    assert c.After(k + 1) == EnterIr(im', LowerBody(c.p, g), ivs);
    assert m'.callers[1..] == m.callers && im'.callers[1..] == im.callers;
    assert CallersMatch(c.p, g, m'.callers, im'.callers, im.heap, |m.maps|);
    EnterReaches(c, k + 1, m', g, vals, ivs, im');
  }

  // The value of an argument can be told from its representation.
  lemma ArgumentDecodes(tag: TypeTag, v: Val, iv: IrVal, heap: Heap, maps: nat)
    requires !tag.MapTag? && ValMatch(tag, v, iv, heap, maps)
    ensures FromIr(iv, heap) == Some(v)
  {
    if IsBalValue(tag) {
      DecodersAgree(heap, iv.w, ToTagged(v));
    }
  }

  lemma {:induction false} ArgumentsPass(params: seq<Variable>, vals: seq<Val>, ivs: seq<IrVal>, heap: Heap, maps: nat)
    requires |params| == |vals| == |ivs|
    requires forall i :: 0 <= i < |vals| ==>
      !params[i].tag.MapTag? && ValMatch(params[i].tag, vals[i], ivs[i], heap, maps)
    ensures FromIrAll(ivs, heap) == Some(vals)
    decreases |vals|
  {
    if vals != [] {
      hide ValMatch, FromIr;
      assert !params[0].tag.MapTag? && ValMatch(params[0].tag, vals[0], ivs[0], heap, maps);
      ArgumentDecodes(params[0].tag, vals[0], ivs[0], heap, maps);
      ArgumentsPass(params[1..], vals[1..], ivs[1..], heap, maps);
      assert vals == [vals[0]] + vals[1..];
    }
  }

  lemma SimulateExternal(c: Setting, k: nat, m: Store, g: Function, vals: seq<Val>, lhs: Operand, next: string,
                         code: seq<Instr>, pc: nat, im: IrStore, n: nat)
    requires c.After(k) == IrRunning(code, pc, im) && StoreMatch(c.p, m, im) && |vals| == |g.params| == k
    requires FindFunction(c.p.functions, g.name) == Some(g) && g.isExternal && WfExternal(g)
    requires ArgsLoaded(g.params, vals, im, n, k, |m.maps|)
    requires pc + 3 == |code| && code[pc] == CallFn(n + k, g.name, TmpsFrom(n, k))
    requires code[pc + 1] == StoreTo(Tmp(n + k), RefOf(lhs)) && code[pc + 2] == Br(next)
    requires Writable(c.p, m.frame.fn, lhs, g.returnVar.value.tag) && HasBlock(m.frame.fn, next)
    ensures Reaches(c, k + 3, CallExternal(c.env.bir, m, g, vals, lhs, next))
  {
    hide IrRun, Match, HasBlock, Reaches, FrameMatch, CellsMatch, CallersMatch, MapsMatch, LowerBody, ArgsLoaded,
      ValMatch, Writable;
    FindLowered(c.p, c.p.functions, g.name);
    PassedArgs(g.params, vals, im, n, |m.maps|);
    var ivs := EvalAll(im, TmpsFrom(n, k));
    ArgumentsPass(g.params, vals, ivs, im.heap, |m.maps|);
    var v := c.env.bir.external(g.name, vals, m.trace);
    var tag := g.returnVar.value.tag;
    if HasTag(v, tag) {
      NextStep(c, k);
      var event := Bir.ExternalCall(g.name, vals);
      var m1 := m.(trace := m.trace + [event]);
      var im1 := SetTmp(im.(trace := im.trace + [event]), n + k, ToIr(v));
      assert c.After(k + 1) == IrRunning(code, pc + 1, im1);
      TraceMatch(c.p, m, im, event, n + k, ToIr(v));
      ScalarMatches(tag, v, im1.heap, |m.maps|);
      hide StoreMatch, RefOf;
      var im2 := StoreStep(c, k + 1, m1, code, pc + 1, im1, Tmp(n + k), lhs, tag, v);
      JumpStep(c, k + 2, Write(m1, lhs, v), code, pc + 2, im2, next);
    } else {
      ReachesStuck(c, k + 3);
    }
  }

  lemma ScalarMatches(tag: TypeTag, v: Val, heap: Heap, maps: nat)
    requires IsScalar(tag) && HasTag(v, tag)
    ensures ValMatch(tag, v, ToIr(v), heap, maps)
  {
  }

  lemma TraceMatch(p: Package, m: Store, im: IrStore, event: Event, dst: nat, iv: IrVal)
    requires StoreMatch(p, m, im)
    ensures StoreMatch(p, m.(trace := m.trace + [event]), SetTmp(im.(trace := im.trace + [event]), dst, iv))
  {
    hide CellsMatch, CallersMatch, MapsMatch, WfBody, LowerBody;
  }

  // ----- Returns -----

  lemma ResultMatches(tag: TypeTag, v: Val, iv: IrVal, heap: Heap, maps: nat)
    requires ValMatch(tag, v, iv, heap, maps)
    ensures ResultMatch(Some(Returned(tag, v)), Some(iv), heap)
  {
  }

  // The operand a return loads.
  function ReturnOperand(f: Function): Operand
    requires f.returnVar.Some?
  {
    Operand(f.returnVar.value.name, ReturnKind)
  }

  lemma ReturnIsReadable(p: Package, m: Store, im: IrStore)
    requires StoreMatch(p, m, im) && !IsMain(m.frame.fn)
    ensures m.frame.fn.returnVar.Some?
    ensures Readable(p, m.frame.fn, ReturnOperand(m.frame.fn), m.frame.fn.returnVar.value.tag)
  {
    hide CellsMatch, CallersMatch, MapsMatch, LowerBody, WfBlock;
  }

  // Popping a frame leaves the caller's frame matching, with the result to store.
  lemma PopMatch(p: Package, m: Store, im: IrStore, iv: IrVal)
    requires StoreMatch(p, m, im) && m.callers != []
    ensures im.callers != []
    ensures var c, ic := m.callers[0], im.callers[0];
      && Awaits(p, m.frame.fn, c, ic)
      && StoreMatch(p, m.(frame := c.frame, callers := m.callers[1..]),
                    SetTmp(im.(frame := ic.frame, callers := im.callers[1..]), ic.dst, iv))
  {
    hide CellsMatch, MapsMatch, LowerBody, WfBody;
  }

  lemma NoCallers(p: Package, m: Store, im: IrStore)
    requires StoreMatch(p, m, im)
    ensures |m.callers| == |im.callers| && m.trace == im.trace
  {
  }

  function ReturnSteps(m: Store): nat {
    if IsMain(m.frame.fn) then 1 else if m.callers == [] then 2 else 4
  }

  lemma SimulateMainReturn(c: Setting, m: Store, code: seq<Instr>, pc: nat, im: IrStore, n: nat)
    requires PoisedTerm(c, m, Return, code, pc, im, n) && IsMain(m.frame.fn)
    ensures Reaches(c, 1, ReturnFrom(m))
  {
    hide IrRun, StoreMatch, LowerPackage;
    Window(code, pc, LowerTerm(m.frame.fn, Return, n));
    NoCallers(c.p, m, im);
    NextStep(c, 0);
    if m.callers == [] {
      assert c.After(1) == IrDone(None, im.heap, im.trace);
    } else {
      ReachesStuck(c, 1);
    }
  }

  lemma SimulateReturn(c: Setting, m: Store, code: seq<Instr>, pc: nat, im: IrStore, n: nat)
    requires PoisedTerm(c, m, Return, code, pc, im, n) && !IsMain(m.frame.fn)
    ensures Reaches(c, ReturnSteps(m), ReturnFrom(m))
  {
    hide IrRun, StoreMatch, LowerPackage, ValMatch, Readable, Reaches, Match, Read;
    var f := m.frame.fn;
    ReturnIsReadable(c.p, m, im);
    var op, tag := ReturnOperand(f), f.returnVar.value.tag;
    Window(code, pc, LowerTerm(f, Return, n));
    if Read(m, op).Some? {
      var v := Read(m, op).value;
      var im1 := LoadStep(c, 0, m, code, pc, im, n, op, tag);
      NoCallers(c.p, m, im1);
      if m.callers == [] {
        FinishRun(c, m, code, pc + 1, im1, n, tag, v);
      } else {
        ReturnToCaller(c, m, code, pc + 1, im1, n, tag, v);
      }
    } else {
      ReachesStuck(c, ReturnSteps(m));
    }
  }

  lemma FinishRun(c: Setting, m: Store, code: seq<Instr>, pc: nat, im: IrStore, n: nat, tag: TypeTag, v: Val)
    requires c.After(1) == IrRunning(code, pc, im) && pc < |code| && code[pc] == Ret(Tmp(n))
    requires n in im.frame.tmps && ValMatch(tag, v, im.frame.tmps[n], im.heap, |m.maps|)
    requires im.callers == [] && m.trace == im.trace
    ensures Reaches(c, 2, Done(Some(Returned(tag, v)), m.trace))
  {
    hide IrRun, LowerPackage, ValMatch;
    NextStep(c, 1);
    ResultMatches(tag, v, im.frame.tmps[n], im.heap, |m.maps|);
    assert c.After(2) == IrDone(Some(im.frame.tmps[n]), im.heap, im.trace);
  }

  lemma ReturnToCaller(c: Setting, m: Store, code: seq<Instr>, pc: nat, im: IrStore, n: nat, tag: TypeTag, v: Val)
    requires c.After(1) == IrRunning(code, pc, im) && pc < |code| && code[pc] == Ret(Tmp(n))
    requires StoreMatch(c.p, m, im) && m.callers != []
    requires m.frame.fn.returnVar.Some? && m.frame.fn.returnVar.value.tag == tag
    requires n in im.frame.tmps && ValMatch(tag, v, im.frame.tmps[n], im.heap, |m.maps|)
    ensures var cl := m.callers[0];
      Reaches(c, 4, Jump(Write(m.(frame := cl.frame, callers := m.callers[1..]), cl.dst, v), cl.next))
  {
    hide IrRun, StoreMatch, LowerPackage, ValMatch, Reaches, HasBlock, RefOf, TagOf;
    var iv := im.frame.tmps[n];
    PopMatch(c.p, m, im, iv);
    var cl, ic := m.callers[0], im.callers[0];
    var m1 := m.(frame := cl.frame, callers := m.callers[1..]);
    var im1 := SetTmp(im.(frame := ic.frame, callers := im.callers[1..]), ic.dst, iv);
    NextStep(c, 1);
    assert c.After(2) == IrRunning(ic.code, ic.pc, im1);
    var im2 := StoreStep(c, 2, m1, ic.code, ic.pc, im1, Tmp(ic.dst), cl.dst, tag, v);
    JumpStep(c, 3, Write(m1, cl.dst, v), ic.code, ic.pc + 1, im2, cl.next);
  }
}

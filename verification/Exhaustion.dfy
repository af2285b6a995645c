// When emitted code runs out of memory or table capacity: at three places, each a
// condition on the state, and never in code that has none of them. And where
// control is: in the code of the block the frame names.
module Exhaustion {
  import opened Options
  import opened Words
  import opened HashTable
  import opened HashTableRuns
  import opened TaggedValues
  import opened Ir
  import Bir

  // ----- The three places -----

  // Every table of a running state is valid.
  ghost predicate TablesValid(t: IrState) {
    t.IrRunning? ==> forall l :: 0 <= l < |t.store.tables| ==> Valid(t.store.tables[l])
  }

  predicate NeedsBox(x: IrVal) {
    x.I64? && !(MIN_IMMEDIATE <= x.n <= MAX_IMMEDIATE)
  }

  // Boxing an integer for which malloc finds no place.
  predicate NoBox(env: IrEnv, m: IrStore, args: seq<IrVal>) {
    |args| == 1 && NeedsBox(args[0]) && !FreeBox(m.heap, env.malloc(m.heap))
  }

  // Inserting a new key into a full table of the largest size.
  predicate NoSlot(m: IrStore, args: seq<IrVal>) {
    && |args| == 3 && IsTable(m, args[0]) && args[1].StrPtr? && args[2].I64?
    && var t := m.tables[args[0].loc];
      args[1].s !in Contents(t.slots) && t.used + 1 == t.capacity && |t.slots| == TWO_63
  }

  // Merging mappings with too many keys.
  ghost predicate NoMerge(m: IrStore, args: seq<IrVal>) {
    && |args| == 2 && IsTable(m, args[0]) && IsTable(m, args[1])
    && var t, src := m.tables[args[0].loc], m.tables[args[1].loc];
      0 < src.used <= |src.slots| && TooManyKeys(t, src, src.used)
  }

  ghost predicate NoRoom(env: IrEnv, m: IrStore, fn: Runtime, args: seq<IrVal>) {
    match fn
    case IntToAnyFn => NoBox(env, m, args)
    case MapInsertFn => NoSlot(m, args)
    case MapSpreadFn => NoMerge(m, args)
    case _ => false
  }

  // The state is about to run out.
  ghost predicate OutOfRoom(env: IrEnv, t: IrState) {
    && t.IrRunning? && t.pc < |t.code| && t.code[t.pc].CallRt?
    && NoRoom(env, t.store, t.code[t.pc].fn, EvalAll(t.store, t.code[t.pc].rtArgs))
  }

  lemma CallExhaustsIff(env: IrEnv, m: IrStore, fn: Runtime, args: seq<IrVal>)
    requires forall l :: 0 <= l < |m.tables| ==> Valid(m.tables[l])
    ensures CallRuntime(env, m, fn, args).RtExhausts? <==> NoRoom(env, m, fn, args)
  {
    hide Insert, Spread, Capacity, TooManyKeys;
    CreateIsValid();
    match fn
    case MapInsertFn =>
      if |args| == 3 && IsTable(m, args[0]) && args[1].StrPtr? && args[2].I64? {
        InsertRefines(m.tables[args[0].loc], args[1].s, args[2].n);
      }
    case MapSpreadFn =>
      if |args| == 2 && IsTable(m, args[0]) && IsTable(m, args[1]) {
        var src := m.tables[args[1].loc];
        SizeFacts(|src.slots|);
        SpreadEnds(m.tables[args[0].loc], src);
      }
    case _ =>
  }

  lemma SpreadEnds(t: Table, src: Table)
    requires Valid(t) && Valid(src)
    ensures src.used <= |src.slots|
    ensures var r := Spread(t, src);
      && (r.CapacityOverflow? <==> src.used > 0 && TooManyKeys(t, src, src.used))
      && (r.Ok? ==> Valid(r.table))
  {
    hide SpreadUpTo, TooManyKeys;
    SizeFacts(|src.slots|);
    SpreadRefines(t, src, src.used);
  }

  // From a state with valid tables the emitted code runs out exactly there.
  lemma ExhaustsIff(env: IrEnv, mod: Module, t: IrState)
    requires TablesValid(t) && t.IrRunning?
    ensures IrStep(env, mod, t).IrExhausted? <==> OutOfRoom(env, t)
  {
    hide CallRuntime, NoRoom;
    if t.pc < |t.code| && t.code[t.pc].CallRt? {
      CallExhaustsIff(env, t.store, t.code[t.pc].fn, EvalAll(t.store, t.code[t.pc].rtArgs));
    }
  }

  lemma CallKeepsTables(env: IrEnv, m: IrStore, fn: Runtime, args: seq<IrVal>)
    requires forall l :: 0 <= l < |m.tables| ==> Valid(m.tables[l])
    ensures var r := CallRuntime(env, m, fn, args);
      r.RtReturns? ==> forall l :: 0 <= l < |r.m.tables| ==> Valid(r.m.tables[l])
  {
    hide Insert, Spread, Valid;
    CreateIsValid();
    match fn
    case MapInsertFn =>
      if |args| == 3 && IsTable(m, args[0]) && args[1].StrPtr? && args[2].I64? {
        InsertRefines(m.tables[args[0].loc], args[1].s, args[2].n);
      }
    case MapSpreadFn =>
      if |args| == 2 && IsTable(m, args[0]) && IsTable(m, args[1]) {
        SpreadEnds(m.tables[args[0].loc], m.tables[args[1].loc]);
      }
    case _ =>
  }

  lemma StepKeepsTables(env: IrEnv, mod: Module, t: IrState)
    requires TablesValid(t)
    ensures TablesValid(IrStep(env, mod, t))
  {
    hide CallRuntime, Valid, OpValue, FromIrAll, FindIr, FindLabel, Lookup;
    if t.IrRunning? && t.pc < |t.code| && t.code[t.pc].CallRt? {
      CallKeepsTables(env, t.store, t.code[t.pc].fn, EvalAll(t.store, t.code[t.pc].rtArgs));
    }
  }

  lemma {:induction false} NextOfRun(env: IrEnv, mod: Module, t: IrState, n: nat)
    ensures IrRun(env, mod, t, n + 1) == IrStep(env, mod, IrRun(env, mod, t, n))
  {
    IrRunSplit(env, mod, t, n, 1);
  }

  lemma {:induction false} RunKeepsTables(env: IrEnv, mod: Module, t: IrState, n: nat)
    requires TablesValid(t)
    ensures TablesValid(IrRun(env, mod, t, n))
    decreases n
  {
    hide TablesValid, IrStep, IrRun;
    if n == 0 {
      NothingRun(env, mod, t);
    } else {
      RunKeepsTables(env, mod, t, n - 1);
      NextOfRun(env, mod, t, n - 1);
      StepKeepsTables(env, mod, IrRun(env, mod, t, n - 1));
    }
  }

  lemma NothingRun(env: IrEnv, mod: Module, t: IrState)
    ensures IrRun(env, mod, t, 0) == t
  {
  }

  // At some step before the n-th the run is about to run out.
  ghost predicate RunsOut(env: IrEnv, mod: Module, t: IrState, n: nat) {
    exists j: nat :: j < n && OutOfRoom(env, IrRun(env, mod, t, j))
  }

  // A run is exhausted exactly when it reached one of the three places.
  lemma {:induction false} ExhaustedIff(env: IrEnv, mod: Module, t: IrState, n: nat)
    requires TablesValid(t) && !t.IrExhausted?
    ensures IrRun(env, mod, t, n).IrExhausted? <==> RunsOut(env, mod, t, n)
    decreases n
  {
    hide TablesValid, IrStep, IrRun, OutOfRoom;
    if n == 0 {
      NothingRun(env, mod, t);
    } else {
      var before := IrRun(env, mod, t, n - 1);
      ExhaustedIff(env, mod, t, n - 1);
      NextOfRun(env, mod, t, n - 1);
      RunKeepsTables(env, mod, t, n - 1);
      if before.IrRunning? {
        ExhaustsIff(env, mod, before);
        if RunsOut(env, mod, t, n) && !RunsOut(env, mod, t, n - 1) {
          var j: nat :| j < n && OutOfRoom(env, IrRun(env, mod, t, j));
          assert j == n - 1;
        }
      } else {
        EndedIsEnded(env, mod, before);
        if RunsOut(env, mod, t, n) && !RunsOut(env, mod, t, n - 1) {
          var j: nat :| j < n && OutOfRoom(env, IrRun(env, mod, t, j));
          RunningIfOut(env, IrRun(env, mod, t, j));
        }
      }
    }
  }

  lemma EndedIsEnded(env: IrEnv, mod: Module, t: IrState)
    requires !t.IrRunning?
    ensures IrStep(env, mod, t) == t
  {
  }

  lemma RunningIfOut(env: IrEnv, t: IrState)
    requires OutOfRoom(env, t)
    ensures t.IrRunning?
  {
  }

  // ----- Code that never runs out -----

  predicate Quiet(code: seq<Instr>) {
    forall i :: 0 <= i < |code| ==> QuietInstr(code[i])
  }

  predicate QuietInstr(i: Instr) {
    i.CallRt? ==> !(i.fn.IntToAnyFn? || i.fn.MapInsertFn? || i.fn.MapSpreadFn?)
  }

  predicate QuietBody(b: IrBody) {
    Quiet(b.entry) && forall i :: 0 <= i < |b.blocks| ==> Quiet(b.blocks[i].instrs)
  }

  predicate QuietModule(mod: Module) {
    forall i :: 0 <= i < |mod.functions| && mod.functions[i].body.Some? ==> QuietBody(mod.functions[i].body.value)
  }

  predicate QuietState(t: IrState) {
    t.IrRunning? ==>
      && Quiet(t.code) && QuietBody(t.store.frame.body)
      && forall i :: 0 <= i < |t.store.callers| ==>
           Quiet(t.store.callers[i].code) && QuietBody(t.store.callers[i].frame.body)
  }

  lemma {:induction false} LabelIsQuiet(blocks: seq<IrBlock>, target: string)
    requires forall i :: 0 <= i < |blocks| ==> Quiet(blocks[i].instrs)
    ensures FindLabel(blocks, target).Some? ==> Quiet(FindLabel(blocks, target).value)
    decreases |blocks|
  {
    hide Quiet;
    if blocks != [] && blocks[0].id != target {
      LabelIsQuiet(blocks[1..], target);
    }
  }

  lemma {:induction false} FoundIsQuiet(fs: seq<IrFunction>, name: string)
    requires forall i :: 0 <= i < |fs| && fs[i].body.Some? ==> QuietBody(fs[i].body.value)
    ensures FindIr(fs, name).Some? && FindIr(fs, name).value.body.Some? ==> QuietBody(FindIr(fs, name).value.body.value)
    decreases |fs|
  {
    hide QuietBody;
    if fs != [] && fs[0].name != name {
      FoundIsQuiet(fs[1..], name);
    }
  }

  lemma BranchIsQuiet(m: IrStore, t: IrState, target: string)
    requires t.IrRunning? && QuietState(t) && m == t.store
    ensures QuietState(BranchTo(m, target))
  {
    hide Quiet, FindLabel;
    LabelIsQuiet(m.frame.body.blocks, target);
  }

  lemma QuietStep(env: IrEnv, mod: Module, t: IrState)
    requires QuietModule(mod) && QuietState(t)
    ensures QuietState(IrStep(env, mod, t))
  {
    hide Quiet, OpValue, CallRuntime, LookupInto, FromIrAll, FindIr, BranchTo;
    if t.IrRunning? && t.pc < |t.code| {
      var m := t.store;
      match t.code[t.pc]
      case Br(target) => BranchIsQuiet(m, t, target);
      case CondBr(_, onTrue, onFalse) =>
        BranchIsQuiet(m, t, onTrue);
        BranchIsQuiet(m, t, onFalse);
      case CallFn(_, callee, _) => FoundIsQuiet(mod.functions, callee);
      case CallRt(_, fn, args) => CallKeepsFrames(env, m, fn, EvalAll(m, args));
      case CallLookup(_, a, k, out) => LookupKeepsFrames(m, Eval(m, a), Eval(m, k), out);
      case _ =>
    }
  }

  lemma CallKeepsFrames(env: IrEnv, m: IrStore, fn: Runtime, args: seq<IrVal>)
    ensures var r := CallRuntime(env, m, fn, args);
      r.RtReturns? ==> r.m.frame == m.frame && r.m.callers == m.callers
  {
    hide Insert, Spread;
  }

  lemma LookupKeepsFrames(m: IrStore, a: IrVal, k: IrVal, out: Ref)
    ensures var r := LookupInto(m, a, k, out);
      r.RtReturns? ==>
        r.m.frame.body == m.frame.body && r.m.frame.block == m.frame.block && r.m.callers == m.callers
  {
  }

  lemma {:induction false} QuietRun(env: IrEnv, mod: Module, t: IrState, n: nat)
    requires QuietModule(mod) && QuietState(t)
    ensures QuietState(IrRun(env, mod, t, n))
    decreases n
  {
    hide QuietModule, QuietState, IrStep;
    if n > 0 {
      QuietStep(env, mod, t);
      QuietRun(env, mod, IrStep(env, mod, t), n - 1);
    }
  }

  // Code without boxing, insertion and merging never gets to one of the places.
  lemma QuietHasRoom(env: IrEnv, mod: Module, t: IrState, n: nat)
    requires QuietModule(mod) && QuietState(t)
    ensures !OutOfRoom(env, IrRun(env, mod, t, n))
  {
    QuietRun(env, mod, t, n);
    hide IrRun;
    var r := IrRun(env, mod, t, n);
    if r.IrRunning? && r.pc < |r.code| {
      assert QuietInstr(r.code[r.pc]);
    }
  }

  // ----- Where control is -----

  // The code being run is that of the block the frame names, or of the entry.
  predicate InNamedBlock(fr: IrFrame, code: seq<Instr>) {
    if fr.block == Bir.ENTRY_BLOCK && code == fr.body.entry then true
    else FindLabel(fr.body.blocks, fr.block) == Some(code)
  }

  predicate ControlNamed(t: IrState) {
    t.IrRunning? ==>
      && InNamedBlock(t.store.frame, t.code)
      && forall i :: 0 <= i < |t.store.callers| ==> InNamedBlock(t.store.callers[i].frame, t.store.callers[i].code)
  }

  lemma StepKeepsName(env: IrEnv, mod: Module, t: IrState)
    requires ControlNamed(t)
    ensures ControlNamed(IrStep(env, mod, t))
  {
    hide OpValue, CallRuntime, LookupInto, FromIrAll, FindIr, FindLabel;
    if t.IrRunning? && t.pc < |t.code| {
      var m := t.store;
      match t.code[t.pc]
      case CallRt(_, fn, args) => CallKeepsFrames(env, m, fn, EvalAll(m, args));
      case CallLookup(_, a, k, out) => LookupKeepsFrames(m, Eval(m, a), Eval(m, k), out);
      case _ =>
    }
  }

  // In any run from the start of a function, control is in the code of the block
  // that the frame names.
  lemma {:induction false} ControlIsNamed(env: IrEnv, mod: Module, body: IrBody, args: seq<IrVal>, n: nat)
    ensures ControlNamed(IrRun(env, mod, StartIr(mod, body, args), n))
    decreases n
  {
    hide IrStep, IrRun, StartIr, ControlNamed;
    var t := StartIr(mod, body, args);
    if n == 0 {
      NothingRun(env, mod, t);
      StartIsNamed(mod, body, args);
    } else {
      ControlIsNamed(env, mod, body, args, n - 1);
      NextOfRun(env, mod, t, n - 1);
      StepKeepsName(env, mod, IrRun(env, mod, t, n - 1));
    }
  }

  lemma StartIsNamed(mod: Module, body: IrBody, args: seq<IrVal>)
    ensures ControlNamed(StartIr(mod, body, args)) && TablesValid(StartIr(mod, body, args))
  {
  }
}

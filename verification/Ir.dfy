// The subset of LLVM IR that the code generator emits, and how it runs: stack
// cells, temporaries, basic blocks, a heap of boxed integers, and the runtime's
// tables. Undefined behaviour is IrStuck.
module Ir {
  import opened Options
  import opened Words
  import opened Division
  import opened HashTable
  import HashTableRuns
  import opened TaggedValues
  import Bir

  // ----- Syntax -----

  // Pointers the emitted code stores through or loads from: an alloca of a local
  // variable, the alloca a map load makes for its result, a global, the nil global.
  datatype Ref = LocalRef(name: string) | OutRef(i: nat) | GlobalRef(name: string) | NilRef

  datatype IrVal =
    | Undef | I64(n: Int64) | I1(b: bool) | I8(c: int) | F64(f: Word)
    | Ptr(w: Word) | StrPtr(s: Key) | MapPtr(loc: nat) | Null

  datatype Opd = Tmp(i: nat) | Arg(k: nat) | Lit(v: IrVal)

  datatype Pred = EQ | NE | SGT | SGE | SLT | SLE | OEQ | ONE | OGT | OGE | OLT | OLE

  datatype IrOp =
    | AddOp | SubOp | MulOp | UDivOp | URemOp | XorOp
    | FAddOp | FSubOp | FMulOp | FDivOp | FRemOp
    | CmpOp(pred: Pred)

  // Functions of the runtime and the conversion functions of the module.
  datatype Runtime =
    | IntToAnyFn | AnyToIntFn | BoolToAnyFn | AnyToBoolFn
    | MapCreateFn | MapInsertFn | MapLookupFn | MapSpreadFn

  // BitCast makes a pointer of another type, which no emitted code uses.
  datatype Instr =
    | Alloca(r: Ref)
    | Load(dst: nat, r: Ref)
    | StoreTo(v: Opd, r: Ref)
    | Op(dst: nat, op: IrOp, a: Opd, b: Opd)
    | FPToSI(dst: nat, a: Opd)
    | BitCast(dst: nat, r: Ref)
    | CallFn(dst: nat, callee: string, args: seq<Opd>)
    | CallRt(dst: nat, fn: Runtime, rtArgs: seq<Opd>)
    | CallLookup(dst: nat, table: Opd, key: Opd, out: Ref)
    | Br(target: string)
    | CondBr(c: Opd, onTrue: string, onFalse: string)
    | Ret(v: Opd)
    | RetVoid

  predicate IsTerminator(i: Instr) {
    i.Br? || i.CondBr? || i.Ret? || i.RetVoid?
  }

  datatype IrBlock = IrBlock(id: string, instrs: seq<Instr>)

  // A function without a body is declared only.
  datatype IrBody = IrBody(entry: seq<Instr>, blocks: seq<IrBlock>)

  datatype IrFunction = IrFunction(name: string, body: Option<IrBody>)

  datatype IrGlobal = IrGlobal(name: string, initial: IrVal)

  datatype Module = Module(globals: seq<IrGlobal>, functions: seq<IrFunction>)

  // ----- States -----

  datatype IrFrame = IrFrame(
    body: IrBody,
    args: seq<IrVal>,
    tmps: map<nat, IrVal>,
    cells: map<string, IrVal>,
    outs: map<nat, IrVal>,
    block: string)

  // A frame waiting for a call: the result goes to temporary dst.
  datatype IrCaller = IrCaller(frame: IrFrame, dst: nat, code: seq<Instr>, pc: nat)

  datatype IrStore = IrStore(
    frame: IrFrame,
    callers: seq<IrCaller>,
    globals: map<string, IrVal>,
    heap: Heap,
    tables: seq<Table>,
    trace: seq<Bir.Event>)

  // IrExhausted: malloc failed or a table cannot grow further.
  datatype IrState =
    | IrRunning(code: seq<Instr>, pc: nat, store: IrStore)
    | IrDone(result: Option<IrVal>, heap: Heap, trace: seq<Bir.Event>)
    | IrAborted(trace: seq<Bir.Event>)
    | IrExhausted
    | IrStuck

  // The allocator's choice may depend on the heap in any way.
  datatype IrEnv = IrEnv(bir: Bir.Env, malloc: Heap -> int)

  // ----- Operands and memory -----

  function Eval(m: IrStore, o: Opd): IrVal {
    match o
    case Tmp(i) => if i in m.frame.tmps then m.frame.tmps[i] else Undef
    case Arg(k) => if k < |m.frame.args| then m.frame.args[k] else Undef
    case Lit(v) => v
  }

  function EvalAll(m: IrStore, os: seq<Opd>): (r: seq<IrVal>)
    ensures |r| == |os|
  {
    seq(|os|, i requires 0 <= i < |os| => Eval(m, os[i]))
  }

  function SetTmp(m: IrStore, i: nat, v: IrVal): IrStore {
    m.(frame := m.frame.(tmps := m.frame.tmps[i := v]))
  }

  function Fetch(m: IrStore, r: Ref): Option<IrVal> {
    match r
    case LocalRef(x) => if x in m.frame.cells then Some(m.frame.cells[x]) else None
    case OutRef(i) => if i in m.frame.outs then Some(m.frame.outs[i]) else None
    case GlobalRef(x) => if x in m.globals then Some(m.globals[x]) else None
    case NilRef => Some(Null)
  }

  function Assign(m: IrStore, r: Ref, v: IrVal): IrStore {
    match r
    case LocalRef(x) => m.(frame := m.frame.(cells := m.frame.cells[x := v]))
    case OutRef(i) => m.(frame := m.frame.(outs := m.frame.outs[i := v]))
    case GlobalRef(x) => m.(globals := m.globals[x := v])
    case NilRef => m
  }

  // ----- Operations -----

  function IntOp(op: IrOp, a: Int64, b: Int64): Option<IrVal> {
    match op
    case AddOp => Some(I64(Wrap(a + b)))
    case SubOp => Some(I64(Wrap(a - b)))
    case MulOp => Some(I64(Wrap(a * b)))
    case UDivOp => if b == 0 then None else Some(I64(UDiv(a, b)))
    case URemOp => if b == 0 then None else Some(I64(URem(a, b)))
    case XorOp => Some(I64(Xor(a, b)))
    case CmpOp(pred) =>
      (match pred
       case EQ => Some(I1(a == b))
       case NE => Some(I1(a != b))
       case SGT => Some(I1(a > b))
       case SGE => Some(I1(a >= b))
       case SLT => Some(I1(a < b))
       case SLE => Some(I1(a <= b))
       case _ => None)
    case _ => None
  }

  // An ordered comparison is false when either operand is a NaN.
  function FloatOp(ar: Bir.Arithmetic, op: IrOp, a: Word, b: Word): Option<IrVal> {
    match op
    case FAddOp => Some(F64(ar.add(a, b)))
    case FSubOp => Some(F64(ar.sub(a, b)))
    case FMulOp => Some(F64(ar.mul(a, b)))
    case FDivOp => Some(F64(ar.div(a, b)))
    case FRemOp => Some(F64(ar.rem(a, b)))
    case CmpOp(pred) =>
      (match pred
       case OEQ => Some(I1(ar.eq(a, b)))
       case ONE => Some(I1(ar.ordered(a, b) && !ar.eq(a, b)))
       case OGT => Some(I1(ar.gt(a, b)))
       case OGE => Some(I1(ar.ge(a, b)))
       case OLT => Some(I1(ar.lt(a, b)))
       case OLE => Some(I1(ar.le(a, b)))
       case _ => None)
    case _ => None
  }

  function OpValue(ar: Bir.Arithmetic, op: IrOp, x: IrVal, y: IrVal): Option<IrVal> {
    if x.I64? && y.I64? then IntOp(op, x.n, y.n)
    else if x.F64? && y.F64? then FloatOp(ar, op, x.f, y.f)
    else if x.Null? && y.Null? && op == CmpOp(EQ) then Some(I1(true))
    else if x.I1? && y.I1? && op == XorOp then Some(I1(x.b != y.b))
    else if x.I1? && y.I1? && op == CmpOp(NE) then Some(I1(x.b != y.b))
    else None
  }

  // ----- Runtime calls -----

  // What a runtime call leaves: a result and a store, or one of three ends.
  datatype RtResult = RtReturns(v: IrVal, m: IrStore) | RtAborts | RtExhausts | RtUndefined

  function TableResult(m: IrStore, l: nat, o: Outcome): RtResult
    requires l < |m.tables|
  {
    match o
    case Ok(t) => RtReturns(Undef, m.(tables := m.tables[l := t]))
    case CapacityOverflow => RtExhausts
    case Shrinking => RtAborts
  }

  function CallConversion(env: IrEnv, m: IrStore, fn: Runtime, x: IrVal): RtResult {
    match fn
    case IntToAnyFn =>
      if !x.I64? then RtUndefined
      else
        (match IntToAny(x.n, m.heap, env.malloc(m.heap))
         case Word(w, heap) => RtReturns(Ptr(w), m.(heap := heap))
         case NoMemory => RtExhausts)
    case AnyToIntFn =>
      if !x.Ptr? then RtUndefined
      else
        (match AnyToInt(x.w, m.heap)
         case Int(n) => RtReturns(I64(n), m)
         case Abort => RtAborts
         case Unmapped => RtUndefined)
    case BoolToAnyFn => if x.I1? then RtReturns(Ptr(BoolToAny(x.b)), m) else RtUndefined
    case AnyToBoolFn => if x.Ptr? then RtReturns(I1(AnyToBool(x.w)), m) else RtUndefined
    case _ => RtUndefined
  }

  predicate IsTable(m: IrStore, v: IrVal) {
    v.MapPtr? && v.loc < |m.tables| && |m.tables[v.loc].slots| > 0
  }

  function CallRuntime(env: IrEnv, m: IrStore, fn: Runtime, args: seq<IrVal>): RtResult {
    match fn
    case MapCreateFn =>
      if args != [] then RtUndefined
      else
        (match HashTableRuns.Create()
         case Ok(t) => RtReturns(MapPtr(|m.tables|), m.(tables := m.tables + [t]))
         case CapacityOverflow => RtExhausts
         case Shrinking => RtAborts)
    case MapInsertFn =>
      if |args| == 3 && IsTable(m, args[0]) && args[1].StrPtr? && args[2].I64?
      then TableResult(m, args[0].loc, Insert(m.tables[args[0].loc], args[1].s, args[2].n))
      else RtUndefined
    case MapSpreadFn =>
      if |args| == 2 && IsTable(m, args[0]) && IsTable(m, args[1])
      then TableResult(m, args[0].loc, Spread(m.tables[args[0].loc], m.tables[args[1].loc]))
      else RtUndefined
    case _ => if |args| == 1 then CallConversion(env, m, fn, args[0]) else RtUndefined
  }

  // bal_map_lookup answers 1 and writes through its out pointer, or answers 0.
  function LookupInto(m: IrStore, t: IrVal, k: IrVal, out: Ref): RtResult {
    if IsTable(m, t) && k.StrPtr? then
      match Lookup(m.tables[t.loc], k.s)
      case Some(v) => RtReturns(I8(1), Assign(m, out, I64(v)))
      case None => RtReturns(I8(0), m)
    else RtUndefined
  }

  // ----- External calls -----

  function ToIr(v: Bir.Val): IrVal {
    match v
    case IntV(n) => I64(n)
    case FloatV(f) => F64(f)
    case BoolV(b) => I1(b)
    case ByteV(c) => I8(c)
    case StrV(s) => StrPtr(s)
    case NilV => Null
    case MapV(l) => MapPtr(l)
  }

  // The value a word stands for: the word of a boolean makes any_to_int abort.
  function FromWord(w: Word, heap: Heap): Option<Bir.Val> {
    match AnyToInt(w, heap)
    case Int(n) => Some(Bir.IntV(n))
    case Abort => Some(Bir.BoolV(AnyToBool(w)))
    case Unmapped => None
  }

  function FromIr(v: IrVal, heap: Heap): Option<Bir.Val> {
    match v
    case Ptr(w) => FromWord(w, heap)
    case I64(n) => Some(Bir.IntV(n))
    case F64(f) => Some(Bir.FloatV(f))
    case I1(b) => Some(Bir.BoolV(b))
    case I8(c) => if 0 <= c < 256 then Some(Bir.ByteV(c)) else None
    case StrPtr(s) => Some(Bir.StrV(s))
    case Null => Some(Bir.NilV)
    case _ => None
  }

  function FromIrAll(vs: seq<IrVal>, heap: Heap): Option<seq<Bir.Val>> {
    if vs == [] then Some([])
    else
      var v, rest := FromIr(vs[0], heap), FromIrAll(vs[1..], heap);
      if v.Some? && rest.Some? then Some([v.value] + rest.value) else None
  }

  // ----- Steps -----

  function FindIr(fs: seq<IrFunction>, name: string): Option<IrFunction> {
    if fs == [] then None
    else if fs[0].name == name then Some(fs[0])
    else FindIr(fs[1..], name)
  }

  function FindLabel(blocks: seq<IrBlock>, target: string): Option<seq<Instr>> {
    if blocks == [] then None
    else if blocks[0].id == target then Some(blocks[0].instrs)
    else FindLabel(blocks[1..], target)
  }

  function BranchTo(m: IrStore, target: string): IrState {
    var code := FindLabel(m.frame.body.blocks, target);
    if code.Some? then IrRunning(code.value, 0, m.(frame := m.frame.(block := target))) else IrStuck
  }

  function EnterIr(m: IrStore, body: IrBody, args: seq<IrVal>): IrState {
    IrRunning(body.entry, 0, m.(frame := IrFrame(body, args, map[], map[], map[], Bir.ENTRY_BLOCK)))
  }

  function AfterRt(code: seq<Instr>, pc: nat, m: IrStore, dst: nat, r: RtResult): IrState {
    match r
    case RtReturns(v, m') => IrRunning(code, pc + 1, SetTmp(m', dst, v))
    case RtAborts => IrAborted(m.trace)
    case RtExhausts => IrExhausted
    case RtUndefined => IrStuck
  }

  function CallIr(env: IrEnv, mod: Module, code: seq<Instr>, pc: nat, m: IrStore,
                  dst: nat, callee: string, args: seq<IrVal>): IrState
  {
    var f := FindIr(mod.functions, callee);
    if f.None? then IrStuck
    else if f.value.body.Some? then
      EnterIr(m.(callers := [IrCaller(m.frame, dst, code, pc + 1)] + m.callers), f.value.body.value, args)
    else
      var vs := FromIrAll(args, m.heap);
      if vs.None? then IrStuck
      else
        var v := env.bir.external(callee, vs.value, m.trace);
        var m' := m.(trace := m.trace + [Bir.ExternalCall(callee, vs.value)]);
        IrRunning(code, pc + 1, SetTmp(m', dst, ToIr(v)))
  }

  function ReturnIr(m: IrStore, v: Option<IrVal>): IrState {
    if m.callers == [] then IrDone(v, m.heap, m.trace)
    else
      var c := m.callers[0];
      var m' := m.(frame := c.frame, callers := m.callers[1..]);
      IrRunning(c.code, c.pc, if v.Some? then SetTmp(m', c.dst, v.value) else m')
  }

  function ExecInstr(env: IrEnv, mod: Module, code: seq<Instr>, pc: nat, m: IrStore, i: Instr): IrState {
    match i
    case Alloca(r) => IrRunning(code, pc + 1, Assign(m, r, Undef))
    case Load(dst, r) =>
      var v := Fetch(m, r);
      if v.Some? then IrRunning(code, pc + 1, SetTmp(m, dst, v.value)) else IrStuck
    case StoreTo(o, r) =>
      if Fetch(m, r).Some? then IrRunning(code, pc + 1, Assign(m, r, Eval(m, o))) else IrStuck
    case Op(dst, op, a, b) =>
      var v := OpValue(env.bir.arith, op, Eval(m, a), Eval(m, b));
      if v.Some? then IrRunning(code, pc + 1, SetTmp(m, dst, v.value)) else IrStuck
    case FPToSI(dst, a) =>
      var x := Eval(m, a);
      if x.F64? then IrRunning(code, pc + 1, SetTmp(m, dst, I64(env.bir.arith.toInt(x.f)))) else IrStuck
    case BitCast(dst, r) => IrRunning(code, pc + 1, SetTmp(m, dst, Undef))
    case CallFn(dst, callee, args) => CallIr(env, mod, code, pc, m, dst, callee, EvalAll(m, args))
    case CallRt(dst, fn, args) => AfterRt(code, pc, m, dst, CallRuntime(env, m, fn, EvalAll(m, args)))
    case CallLookup(dst, t, k, out) =>
      AfterRt(code, pc, m, dst, LookupInto(m, Eval(m, t), Eval(m, k), out))
    case Br(target) => BranchTo(m, target)
    case CondBr(c, onTrue, onFalse) =>
      var x := Eval(m, c);
      if x.I1? then BranchTo(m, if x.b then onTrue else onFalse) else IrStuck
    case Ret(o) => ReturnIr(m, Some(Eval(m, o)))
    case RetVoid => ReturnIr(m, None)
  }

  function IrStep(env: IrEnv, mod: Module, t: IrState): IrState {
    match t
    case IrRunning(code, pc, m) => if pc < |code| then ExecInstr(env, mod, code, pc, m, code[pc]) else IrStuck
    case _ => t
  }

  function IrRun(env: IrEnv, mod: Module, t: IrState, n: nat): IrState
    decreases n
  {
    if n == 0 then t else IrRun(env, mod, IrStep(env, mod, t), n - 1)
  }

  lemma {:induction false} IrRunSplit(env: IrEnv, mod: Module, t: IrState, a: nat, b: nat)
    ensures IrRun(env, mod, t, a + b) == IrRun(env, mod, IrRun(env, mod, t, a), b)
    decreases a
  {
    if a > 0 {
      IrRunSplit(env, mod, IrStep(env, mod, t), a - 1, b);
    }
  }

  // A state that has ended stays as it is.
  lemma {:induction false} IrEnded(env: IrEnv, mod: Module, t: IrState, n: nat)
    requires !t.IrRunning?
    ensures IrRun(env, mod, t, n) == t
    decreases n
  {
    if n > 0 {
      IrEnded(env, mod, t, n - 1);
    }
  }

  function InitialGlobals(gs: seq<IrGlobal>): map<string, IrVal> {
    if gs == [] then map[] else InitialGlobals(gs[1..])[gs[0].name := gs[0].initial]
  }

  function StartIr(mod: Module, body: IrBody, args: seq<IrVal>): IrState {
    var frame := IrFrame(body, [], map[], map[], map[], Bir.ENTRY_BLOCK);
    EnterIr(IrStore(frame, [], InitialGlobals(mod.globals), map[], [], []), body, args)
  }
}

// The translation of packages to IR modules, as functions. The builder classes
// of CodeGen emit exactly these instructions.
module Lowering {
  import opened Options
  import opened Ir
  import opened Bir

  // ----- Operands -----

  function RefOf(op: Operand): Ref {
    if op.kind.GlobalKind? then GlobalRef(op.name) else LocalRef(op.name)
  }

  // The load that brings an operand into a temporary.
  function LoadOf(n: nat, op: Operand): Instr {
    Load(n, RefOf(op))
  }

  function LoadsOf(n: nat, ops: seq<Operand>): (r: seq<Instr>)
    ensures |r| == |ops|
  {
    seq(|ops|, i requires 0 <= i < |ops| => LoadOf(n + i, ops[i]))
  }

  function TmpsFrom(n: nat, k: nat): (r: seq<Opd>)
    ensures |r| == k
  {
    seq(k, i requires 0 <= i < k => Tmp(n + i))
  }

  // ----- Instructions: n is the first free temporary -----

  // The instruction for an operator, chosen by the type of the first operand.
  // Division and remainder are the unsigned ones.
  function BinaryOpOf(kind: BinaryKind, tag: TypeTag): IrOp {
    match kind
    case Add => if tag.IntTag? then AddOp else FAddOp
    case Sub => if tag.IntTag? then SubOp else FSubOp
    case Mul => if tag.IntTag? then MulOp else FMulOp
    case Div => if tag.IntTag? then UDivOp else FDivOp
    case Mod => if tag.IntTag? then URemOp else FRemOp
    case Equal => CmpOp(if tag.FloatTag? then OEQ else EQ)
    case NotEqual => CmpOp(if tag.IntTag? then NE else ONE)
    case GreaterThan => CmpOp(if tag.IntTag? then SGT else OGT)
    case GreaterEqual => CmpOp(if tag.IntTag? then SGE else OGE)
    case LessThan => CmpOp(if tag.IntTag? then SLT else OLT)
    case LessEqual => CmpOp(if tag.IntTag? then SLE else OLE)
    case BitwiseXor => XorOp
  }

  function LowerUnary(op: UnaryKind, lhs: Operand, rhs: Operand, n: nat): seq<Instr> {
    match op
    case Not => [LoadOf(n, rhs), Op(n + 1, XorOp, Tmp(n), Lit(I1(true))), StoreTo(Tmp(n + 1), RefOf(lhs))]
    case Neg => [LoadOf(n, rhs), Op(n + 1, SubOp, Lit(I64(0)), Tmp(n)), StoreTo(Tmp(n + 1), RefOf(lhs))]
  }

  function LowerConst(f: Function, lhs: Operand, c: Constant, n: nat): seq<Instr> {
    match c
    case IntConst(v) => [StoreTo(Lit(I64(v)), RefOf(lhs))]
    case FloatConst(v) => [StoreTo(Lit(F64(v)), RefOf(lhs))]
    case ByteConst(v) => [StoreTo(Lit(I8(v)), RefOf(lhs))]
    case BooleanConst(v) => [StoreTo(Lit(I1(v)), RefOf(lhs))]
    case StringConst(v) => [StoreTo(Lit(StrPtr(v)), RefOf(lhs))]
    case NilConst =>
      if NamesMainResult(f, lhs) then [] else [Load(n, NilRef), StoreTo(Tmp(n), RefOf(lhs))]
  }

  function Convert(lhs: Operand, rhs: Operand, fn: Runtime, n: nat): seq<Instr> {
    [LoadOf(n, rhs), CallRt(n + 1, fn, [Tmp(n)]), StoreTo(Tmp(n + 1), RefOf(lhs))]
  }

  // The pairs the code generator does not reject.
  predicate CastSupported(lhs: TypeTag, rhs: TypeTag) {
    IsBalValue(rhs) ==> IsBalValue(lhs) || lhs.BooleanTag? || lhs.IntTag?
  }

  // The representation of a type.
  datatype LlvmType = IntType | DoubleType | BitType | ByteType | StringPointer | BytePointer

  function TypeOf(tag: TypeTag): LlvmType {
    match tag
    case IntTag => IntType
    case FloatTag => DoubleType
    case BooleanTag => BitType
    case ByteTag => ByteType
    case StringTag => StringPointer
    case _ => BytePointer
  }

  // A pair of types for which no conversion is listed: the cell of the operand is
  // cast to a pointer of the target's type, and nothing is stored. The cast is an
  // instruction for a local variable only, and for different types only.
  function LowerPointerCast(rhs: Operand, lhsTag: TypeTag, rhsTag: TypeTag, n: nat): seq<Instr> {
    if rhs.kind.GlobalKind? || TypeOf(lhsTag) == TypeOf(rhsTag) then [] else [BitCast(n, RefOf(rhs))]
  }

  function LowerCast(lhs: Operand, rhs: Operand, lhsTag: TypeTag, rhsTag: TypeTag, n: nat): seq<Instr> {
    if IsBalValue(rhsTag) then
      if IsBalValue(lhsTag) then [LoadOf(n, rhs), StoreTo(Tmp(n), RefOf(lhs))]
      else if lhsTag.BooleanTag? then Convert(lhs, rhs, AnyToBoolFn, n)
      else Convert(lhs, rhs, AnyToIntFn, n)
    else if IsBalValue(lhsTag) && rhsTag.BooleanTag? then Convert(lhs, rhs, BoolToAnyFn, n)
    else if IsBalValue(lhsTag) && rhsTag.IntTag? then Convert(lhs, rhs, IntToAnyFn, n)
    else if lhsTag.IntTag? && rhsTag.FloatTag? then
      [LoadOf(n, rhs), LoadOf(n + 1, lhs), FPToSI(n + 2, Tmp(n)), StoreTo(Tmp(n + 2), RefOf(lhs))]
    else LowerPointerCast(rhs, lhsTag, rhsTag, n)
  }

  function LowerStore(lhs: Operand, key: Operand, value: Operand, n: nat): seq<Instr> {
    [LoadOf(n, value), LoadOf(n + 1, lhs), LoadOf(n + 2, key),
     CallRt(n + 3, MapInsertFn, [Tmp(n + 1), Tmp(n + 2), Tmp(n)])]
  }

  function LowerField(lhs: Operand, field: MapField, n: nat): seq<Instr> {
    match field
    case SpreadField(expr) =>
      [LoadOf(n, lhs), LoadOf(n + 1, expr), CallRt(n + 2, MapSpreadFn, [Tmp(n), Tmp(n + 1)])]
    case KeyValue(key, value) => LowerStore(lhs, key, value, n)
  }

  function FieldTemps(field: MapField): nat {
    if field.SpreadField? then 3 else 4
  }

  function LowerFields(lhs: Operand, fields: seq<MapField>, n: nat): seq<Instr> {
    if fields == [] then []
    else LowerField(lhs, fields[0], n) + LowerFields(lhs, fields[1..], n + FieldTemps(fields[0]))
  }

  function FieldsTemps(fields: seq<MapField>): nat {
    if fields == [] then 0 else FieldTemps(fields[0]) + FieldsTemps(fields[1..])
  }

  function LowerMapLoad(lhs: Operand, key: Operand, rhs: Operand, n: nat): seq<Instr> {
    [Alloca(OutRef(n)), LoadOf(n + 1, rhs), LoadOf(n + 2, key),
     CallLookup(n + 3, Tmp(n + 1), Tmp(n + 2), OutRef(n)),
     Load(n + 4, OutRef(n)), CallRt(n + 5, IntToAnyFn, [Tmp(n + 4)]),
     StoreTo(Tmp(n + 5), RefOf(lhs))]
  }

  // The static type of an operand; nil for one that names no variable.
  function StaticTag(p: Package, f: Function, op: Operand): TypeTag {
    var tag := TagOf(p, f, op);
    if tag.Some? then tag.value else NilTag
  }

  function LowerInsn(p: Package, f: Function, i: Insn, n: nat): seq<Instr> {
    match i
    case Move(lhs, rhs) => [LoadOf(n, rhs), StoreTo(Tmp(n), RefOf(lhs))]
    case Binary(kind, lhs, rhs1, rhs2) =>
      [LoadOf(n, rhs1), LoadOf(n + 1, rhs2),
       Op(n + 2, BinaryOpOf(kind, StaticTag(p, f, rhs1)), Tmp(n), Tmp(n + 1)),
       StoreTo(Tmp(n + 2), RefOf(lhs))]
    case Unary(op, lhs, rhs) => LowerUnary(op, lhs, rhs, n)
    case ConstLoad(lhs, value) => LowerConst(f, lhs, value, n)
    case TypeCast(lhs, rhs) => LowerCast(lhs, rhs, StaticTag(p, f, lhs), StaticTag(p, f, rhs), n)
    case NewMap(lhs, fields) =>
      [CallRt(n, MapCreateFn, []), StoreTo(Tmp(n), RefOf(lhs))] + LowerFields(lhs, fields, n + 1)
    case MapStore(lhs, key, rhs) => LowerStore(lhs, key, rhs, n)
    case MapLoad(lhs, key, rhs) => LowerMapLoad(lhs, key, rhs, n)
    case FieldInit(lhs, field) => LowerField(lhs, field, n)
  }

  function InsnTemps(p: Package, f: Function, i: Insn): nat {
    match i
    case Move(_, _) => 1
    case Binary(_, _, _, _) => 3
    case Unary(_, _, _) => 2
    case ConstLoad(lhs, value) => if value.NilConst? && !NamesMainResult(f, lhs) then 1 else 0
    case TypeCast(lhs, rhs) => CastTemps(rhs, StaticTag(p, f, lhs), StaticTag(p, f, rhs))
    case NewMap(_, fields) => 1 + FieldsTemps(fields)
    case MapStore(_, _, _) => 4
    case MapLoad(_, _, _) => 6
    case FieldInit(_, field) => FieldTemps(field)
  }

  function CastTemps(rhs: Operand, lhsTag: TypeTag, rhsTag: TypeTag): nat {
    if IsBalValue(lhsTag) && IsBalValue(rhsTag) then 1
    else if IsBalValue(rhsTag) then 2
    else if IsBalValue(lhsTag) && (rhsTag.BooleanTag? || rhsTag.IntTag?) then 2
    else if lhsTag.IntTag? && rhsTag.FloatTag? then 3
    else |LowerPointerCast(rhs, lhsTag, rhsTag, 0)|
  }

  function LowerTerm(f: Function, term: Terminator, n: nat): seq<Instr> {
    match term
    case Goto(next) => [Br(next)]
    case CondBranch(cond, onTrue, onFalse) =>
      [LoadOf(n, cond), Op(n + 1, CmpOp(NE), Tmp(n), Lit(I1(false))), CondBr(Tmp(n + 1), onTrue, onFalse)]
    case Call(callee, args, lhs, next) =>
      LoadsOf(n, args) +
      [CallFn(n + |args|, callee, TmpsFrom(n, |args|)), StoreTo(Tmp(n + |args|), RefOf(lhs)), Br(next)]
    case Return =>
      if IsMain(f) then [RetVoid]
      else if f.returnVar.Some? then [Load(n, LocalRef(f.returnVar.value.name)), Ret(Tmp(n))]
      else []
  }

  function TermTemps(f: Function, term: Terminator): nat {
    match term
    case Goto(_) => 0
    case CondBranch(_, _, _) => 2
    case Call(_, args, _, _) => |args| + 1
    case Return => if !IsMain(f) && f.returnVar.Some? then 1 else 0
  }

  // ----- Blocks, functions, packages -----

  // The code of the instructions and terminator of a block.
  function Lowered(p: Package, f: Function, insns: seq<Insn>, term: Option<Terminator>, n: nat): seq<Instr> {
    if insns == [] then if term.Some? then LowerTerm(f, term.value, n) else []
    else LowerInsn(p, f, insns[0], n) + Lowered(p, f, insns[1..], term, n + InsnTemps(p, f, insns[0]))
  }

  function BlockTemps(p: Package, f: Function, insns: seq<Insn>, term: Option<Terminator>): nat {
    if insns == [] then if term.Some? then TermTemps(f, term.value) else 0
    else InsnTemps(p, f, insns[0]) + BlockTemps(p, f, insns[1..], term)
  }

  function LowerBlocks(p: Package, f: Function, blocks: seq<BasicBlock>, n: nat): (r: seq<IrBlock>)
    ensures |r| == |blocks|
    ensures forall i :: 0 <= i < |blocks| ==> r[i].id == blocks[i].id
  {
    if blocks == [] then []
    else
      var b := blocks[0];
      [IrBlock(b.id, Lowered(p, f, b.insns, b.terminator, n))]
      + LowerBlocks(p, f, blocks[1..], n + BlockTemps(p, f, b.insns, b.terminator))
  }

  // One cell for each local variable; the ARG-kind ones, in order, receive the
  // arguments from the k-th on.
  function LowerLocals(vars: seq<Variable>, k: nat): seq<Instr> {
    if vars == [] then []
    else
      var cell := LocalRef(vars[0].name);
      if vars[0].kind.ArgKind? then [Alloca(cell), StoreTo(Arg(k), cell)] + LowerLocals(vars[1..], k + 1)
      else [Alloca(cell)] + LowerLocals(vars[1..], k)
  }

  function LowerEntry(f: Function): seq<Instr> {
    LowerLocals(f.localVars, 0) + if f.blocks == [] then [] else [Br(f.blocks[0].id)]
  }

  function LowerBody(p: Package, f: Function): IrBody {
    IrBody(LowerEntry(f), LowerBlocks(p, f, f.blocks, 0))
  }

  function LowerFunction(p: Package, f: Function): IrFunction {
    IrFunction(f.name, if f.isExternal then None else Some(LowerBody(p, f)))
  }

  function LowerFunctions(p: Package, fs: seq<Function>): (r: seq<IrFunction>)
    ensures |r| == |fs|
    ensures forall i :: 0 <= i < |fs| ==> r[i] == LowerFunction(p, fs[i])
  {
    seq(|fs|, i requires 0 <= i < |fs| => LowerFunction(p, fs[i]))
  }

  // The null value of the type of a global.
  function NullOf(tag: TypeTag): IrVal {
    match tag
    case IntTag => I64(0)
    case FloatTag => F64(0)
    case BooleanTag => I1(false)
    case ByteTag => I8(0)
    case _ => Null
  }

  function LowerGlobals(vars: seq<Variable>): (r: seq<IrGlobal>)
    ensures |r| == |vars|
  {
    seq(|vars|, i requires 0 <= i < |vars| => IrGlobal(vars[i].name, NullOf(vars[i].tag)))
  }

  function LowerPackage(p: Package): Module {
    Module(LowerGlobals(p.globals), LowerFunctions(p, p.functions))
  }

  // ----- Shape of the emitted code -----

  // The fields of a constructor lower to the same code one by one.
  lemma {:induction false} FieldsOneByOne(p: Package, f: Function, lhs: Operand, fields: seq<MapField>,
                                          rest: seq<Insn>, term: Option<Terminator>, n: nat)
    ensures Lowered(p, f, FieldInits(lhs, fields) + rest, term, n)
      == LowerFields(lhs, fields, n) + Lowered(p, f, rest, term, n + FieldsTemps(fields))
    decreases |fields|
  {
    hide LowerField, FieldTemps, LowerTerm;
    var inits := FieldInits(lhs, fields) + rest;
    if fields == [] {
      assert inits == rest;
    } else {
      var n' := n + FieldTemps(fields[0]);
      assert inits[0] == FieldInit(lhs, fields[0]);
      assert inits[1..] == FieldInits(lhs, fields[1..]) + rest;
      FieldsOneByOne(p, f, lhs, fields[1..], rest, term, n');
      assert Lowered(p, f, inits, term, n)
        == LowerField(lhs, fields[0], n) + Lowered(p, f, FieldInits(lhs, fields[1..]) + rest, term, n');
    }
  }

  predicate NoTerminator(code: seq<Instr>) {
    forall i :: 0 <= i < |code| ==> !IsTerminator(code[i])
  }

  // Ends in its only terminator, every target of which is a block of the function.
  predicate WellEnded(f: Function, code: seq<Instr>) {
    && code != [] && NoTerminator(code[..|code| - 1])
    && match code[|code| - 1]
       case Br(target) => HasBlock(f, target)
       case CondBr(_, onTrue, onFalse) => HasBlock(f, onTrue) && HasBlock(f, onFalse)
       case Ret(_) => !IsMain(f)
       case RetVoid => IsMain(f)
       case _ => false
  }

  lemma {:induction false} FieldsDoNotEnd(lhs: Operand, fields: seq<MapField>, n: nat)
    ensures NoTerminator(LowerFields(lhs, fields, n))
    decreases |fields|
  {
    if fields != [] {
      FieldsDoNotEnd(lhs, fields[1..], n + FieldTemps(fields[0]));
    }
  }

  lemma InsnsDoNotEnd(p: Package, f: Function, i: Insn, n: nat)
    ensures NoTerminator(LowerInsn(p, f, i, n))
  {
    if i.NewMap? {
      FieldsDoNotEnd(i.lhs, i.fields, n + 1);
    }
  }

  lemma WellEndedAfter(f: Function, front: seq<Instr>, code: seq<Instr>)
    requires NoTerminator(front) && WellEnded(f, code)
    ensures WellEnded(f, front + code)
  {
    var all := front + code;
    assert all[..|all| - 1] == front + code[..|code| - 1];
  }

  lemma {:induction false} BlockIsWellEnded(p: Package, f: Function, insns: seq<Insn>, term: Terminator, n: nat)
    requires WfTerm(p, f, term) && (!IsMain(f) ==> f.returnVar.Some?)
    ensures WellEnded(f, Lowered(p, f, insns, Some(term), n))
    decreases |insns|
  {
    if insns == [] {
      TermIsWellEnded(p, f, term, n);
    } else {
      InsnsDoNotEnd(p, f, insns[0], n);
      var rest := n + InsnTemps(p, f, insns[0]);
      BlockIsWellEnded(p, f, insns[1..], term, rest);
      WellEndedAfter(f, LowerInsn(p, f, insns[0], n), Lowered(p, f, insns[1..], Some(term), rest));
    }
  }

  lemma TermIsWellEnded(p: Package, f: Function, term: Terminator, n: nat)
    requires WfTerm(p, f, term) && (!IsMain(f) ==> f.returnVar.Some?)
    ensures WellEnded(f, LowerTerm(f, term, n))
  {
    if term.Call? {
      var k := |term.args|;
      var front := LoadsOf(n, term.args)
        + [CallFn(n + k, term.callee, TmpsFrom(n, k)), StoreTo(Tmp(n + k), RefOf(term.lhs))];
      assert LowerTerm(f, term, n) == front + [Br(term.next)];
      WellEndedAfter(f, front, [Br(term.next)]);
    }
  }

  lemma {:induction false} LocalsDoNotEnd(vars: seq<Variable>, k: nat)
    ensures NoTerminator(LowerLocals(vars, k))
    decreases |vars|
  {
    if vars != [] {
      LocalsDoNotEnd(vars[1..], if vars[0].kind.ArgKind? then k + 1 else k);
    }
  }

  lemma {:induction false} BlocksAreWellEnded(p: Package, f: Function, blocks: seq<BasicBlock>, n: nat)
    requires !IsMain(f) ==> f.returnVar.Some?
    requires forall i :: 0 <= i < |blocks| ==> WfBlock(p, f, blocks[i])
    ensures forall i :: 0 <= i < |blocks| ==> WellEnded(f, LowerBlocks(p, f, blocks, n)[i].instrs)
    decreases |blocks|
  {
    hide WellEnded, Lowered, WfTerm, WfInsn;
    if blocks != [] {
      var b := blocks[0];
      assert WfBlock(p, f, b);
      BlockIsWellEnded(p, f, b.insns, b.terminator.value, n);
      var n' := n + BlockTemps(p, f, b.insns, b.terminator);
      BlocksAreWellEnded(p, f, blocks[1..], n');
      var r := LowerBlocks(p, f, blocks, n);
      assert r[0] == IrBlock(b.id, Lowered(p, f, b.insns, Some(b.terminator.value), n));
      forall i | 1 <= i < |r|
        ensures WellEnded(f, r[i].instrs)
      {
        assert r[i] == LowerBlocks(p, f, blocks[1..], n')[i - 1];
      }
    }
  }

  // The emitted control flow: the entry block and one block for each block of the
  // function, in order, each with one terminator, at its end, and every branch to
  // a block of the function.
  lemma ControlFlowIsWellFormed(p: Package, f: Function)
    requires WfBody(p, f)
    ensures var body := LowerBody(p, f);
      && |body.blocks| == |f.blocks|
      && (forall i :: 0 <= i < |f.blocks| ==>
            body.blocks[i].id == f.blocks[i].id && WellEnded(f, body.blocks[i].instrs))
      && WellEnded(f, body.entry)
      && body.entry[|body.entry| - 1] == Br(f.blocks[0].id)
  {
    hide WellEnded, WfBlock, LowerEntry;
    BlocksAreWellEnded(p, f, f.blocks, 0);
    EntryIsWellEnded(f);
  }

  lemma EntryIsWellEnded(f: Function)
    requires f.blocks != []
    ensures WellEnded(f, LowerEntry(f)) && LowerEntry(f)[|LowerEntry(f)| - 1] == Br(f.blocks[0].id)
  {
    var br := [Br(f.blocks[0].id)];
    LocalsDoNotEnd(f.localVars, 0);
    assert WellEnded(f, br);
    WellEndedAfter(f, LowerLocals(f.localVars, 0), br);
  }

  // The block a label resolves to holds the code of the block of that name.
  lemma {:induction false} LabelFindsBlock(p: Package, f: Function, blocks: seq<BasicBlock>, id: string, n: nat)
    requires FindBlock(blocks, id).Some?
    ensures exists k: nat ::
      FindLabel(LowerBlocks(p, f, blocks, n), id)
      == Some(Lowered(p, f, FindBlock(blocks, id).value.insns, FindBlock(blocks, id).value.terminator, k))
    decreases |blocks|
  {
    hide Lowered, BlockTemps;
    var b := blocks[0];
    var r := LowerBlocks(p, f, blocks, n);
    assert r[0] == IrBlock(b.id, Lowered(p, f, b.insns, b.terminator, n));
    if b.id != id {
      var n' := n + BlockTemps(p, f, b.insns, b.terminator);
      assert r[1..] == LowerBlocks(p, f, blocks[1..], n');
      LabelFindsBlock(p, f, blocks[1..], id, n');
    }
  }

  lemma {:induction false} FindLowered(p: Package, fs: seq<Function>, name: string)
    ensures FindIr(LowerFunctions(p, fs), name)
      == if FindFunction(fs, name).Some? then Some(LowerFunction(p, FindFunction(fs, name).value)) else None
    decreases |fs|
  {
    if fs != [] && fs[0].name != name {
      assert LowerFunctions(p, fs)[1..] == LowerFunctions(p, fs[1..]);
      FindLowered(p, fs[1..], name);
    }
  }
}

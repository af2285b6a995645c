// From what the file reader builds to the packages the translation is about. The
// conversion fails on what is outside the translated language: other types, arrays,
// type tests, and calls without a result.
module Linking {
  import opened Options
  import opened Words
  import opened Streams
  import opened ConstantPools
  import InsnReader
  import FunctionReader
  import PackageReader
  import opened Bir

  // ----- Names, types and kinds -----

  function Name(s: seq<Byte>): (r: string)
    ensures |r| == |s|
  {
    seq(|s|, i requires 0 <= i < |s| => s[i] as char)
  }

  // A mapping appears here as the member of another.
  function LinkedTag(tag: Byte): Option<TypeTag> {
    if tag == TYPE_TAG_INT then Some(IntTag)
    else if tag == TYPE_TAG_BYTE then Some(ByteTag)
    else if tag == TYPE_TAG_FLOAT then Some(FloatTag)
    else if tag == TYPE_TAG_STRING then Some(StringTag)
    else if tag == TYPE_TAG_BOOLEAN then Some(BooleanTag)
    else if tag == TYPE_TAG_NIL then Some(NilTag)
    else if tag == TYPE_TAG_MAP then Some(MapTag)
    else if tag == TYPE_TAG_ANYDATA then Some(AnyDataTag)
    else if tag == TYPE_TAG_ANY then Some(AnyTag)
    else if tag == TYPE_TAG_UNION then Some(UnionTag)
    else None
  }

  function LinkedKind(kind: Byte): Option<VarKind> {
    match kind
    case 1 => Some(LocalKind)
    case 2 => Some(ArgKind)
    case 3 => Some(TempKind)
    case 4 => Some(ReturnKind)
    case 5 => Some(GlobalKind)
    case 6 => Some(SelfKind)
    case 7 => Some(ConstantKind)
    case 8 => Some(SyntheticKind)
    case _ => None
  }

  // The member type of anything but a mapping does not matter.
  function LinkedVariable(name: seq<Byte>, typ: TypeDecl, kind: VarKind): Option<Variable> {
    match typ
    case SimpleType(tag) => (var t :- LinkedTag(tag); Some(Variable(Name(name), t, NilTag, kind)))
    case MapType(member) => (var t :- LinkedTag(member); Some(Variable(Name(name), MapTag, t, kind)))
    case ArrayType(_, _, _) => None
  }

  function LinkedVar(v: FunctionReader.VarDecl): Option<Variable> {
    var kind :- LinkedKind(v.kind);
    LinkedVariable(v.name, v.typ, kind)
  }

  function LinkedParam(v: FunctionReader.Param): Option<Variable> {
    LinkedVariable(v.name, v.typ, ArgKind)
  }

  // ----- Instructions -----

  // The conversions of all elements, in order.
  function All<T, U>(convert: T -> Option<U>, xs: seq<T>): (r: Option<seq<U>>)
    ensures r.Some? ==> |r.value| == |xs| && forall i :: 0 <= i < |xs| ==> convert(xs[i]) == Some(r.value[i])
  {
    if xs == [] then Some([])
    else
      var x :- convert(xs[0]);
      var rest :- All(convert, xs[1..]);
      Some([x] + rest)
  }

  lemma {:induction false} AllAre<T, U>(convert: T -> Option<U>, xs: seq<T>, ys: seq<U>)
    requires |xs| == |ys| && forall i :: 0 <= i < |xs| ==> convert(xs[i]) == Some(ys[i])
    ensures All(convert, xs) == Some(ys)
  {
    if xs != [] {
      AllAre(convert, xs[1..], ys[1..]);
      assert ys == [ys[0]] + ys[1..];
    }
  }

  function LinkedOperand(op: InsnReader.Operand): Option<Operand> {
    var kind :- LinkedKind(op.kind);
    Some(Operand(Name(op.name), kind))
  }

  function LinkedBinary(kind: Byte): Option<BinaryKind> {
    match kind
    case 61 => Some(Add)
    case 62 => Some(Sub)
    case 63 => Some(Mul)
    case 64 => Some(Div)
    case 65 => Some(Mod)
    case 66 => Some(Equal)
    case 67 => Some(NotEqual)
    case 68 => Some(GreaterThan)
    case 69 => Some(GreaterEqual)
    case 70 => Some(LessThan)
    case 71 => Some(LessEqual)
    case 85 => Some(BitwiseXor)
    case _ => None
  }

  function LinkedConstant(c: InsnReader.Constant): Constant {
    match c
    case IntConst(n) => Constant.IntConst(n)
    case ByteConst(b) => Constant.ByteConst(b)
    case BooleanConst(b) => Constant.BooleanConst(b)
    case FloatConst(f) => Constant.FloatConst(f)
    case StringConst(s) => Constant.StringConst(s)
    case NilConst => Constant.NilConst
  }

  function LinkedField(f: InsnReader.MapField): Option<MapField> {
    match f
    case SpreadField(expr) => (var e :- LinkedOperand(expr); Some(MapField.SpreadField(e)))
    case KeyValue(key, value) =>
      (var k :- LinkedOperand(key);
       var v :- LinkedOperand(value);
       Some(MapField.KeyValue(k, v)))
  }

  function LinkedInsn(i: InsnReader.Insn): Option<Insn> {
    match i
    case Structure(lhs, fields) =>
      (var l :- LinkedOperand(lhs);
       var fs :- All(LinkedField, fields);
       Some(NewMap(l, fs)))
    case ConstLoad(lhs, value) => (var l :- LinkedOperand(lhs); Some(Insn.ConstLoad(l, LinkedConstant(value))))
    case Unary(kind, lhs, rhs) =>
      (var l :- LinkedOperand(lhs);
       var r :- LinkedOperand(rhs);
       if kind == InsnReader.UNARY_NOT then Some(Insn.Unary(Not, l, r))
       else if kind == InsnReader.UNARY_NEG then Some(Insn.Unary(Neg, l, r))
       else None)
    case Binary(kind, lhs, rhs1, rhs2) =>
      (var k :- LinkedBinary(kind);
       var l :- LinkedOperand(lhs);
       var r1 :- LinkedOperand(rhs1);
       var r2 :- LinkedOperand(rhs2);
       Some(Insn.Binary(k, l, r1, r2)))
    case Move(lhs, rhs) => (var l :- LinkedOperand(lhs); var r :- LinkedOperand(rhs); Some(Insn.Move(l, r)))
    case TypeCast(lhs, rhs) => (var l :- LinkedOperand(lhs); var r :- LinkedOperand(rhs); Some(Insn.TypeCast(l, r)))
    case MapStore(lhs, key, rhs) =>
      (var l :- LinkedOperand(lhs);
       var k :- LinkedOperand(key);
       var r :- LinkedOperand(rhs);
       Some(Insn.MapStore(l, k, r)))
    case MapLoad(lhs, key, rhs) =>
      (var l :- LinkedOperand(lhs);
       var k :- LinkedOperand(key);
       var r :- LinkedOperand(rhs);
       Some(Insn.MapLoad(l, k, r)))
    case _ => None
  }

  // A call without a result has an operand of no kind.
  function LinkedTerm(t: InsnReader.Terminator): Option<Terminator> {
    match t
    case Goto(next) => Some(Terminator.Goto(Name(next)))
    case CondBranch(cond, onTrue, onFalse) =>
      (var c :- LinkedOperand(cond); Some(Terminator.CondBranch(c, Name(onTrue), Name(onFalse))))
    case Call(callee, args, lhs, next) =>
      (var vs :- All(LinkedOperand, args);
       var l :- LinkedOperand(lhs);
       Some(Terminator.Call(Name(callee), vs, l, Name(next))))
    case Return => Some(Terminator.Return)
  }

  function LinkedBlock(b: InsnReader.BasicBlock): Option<BasicBlock> {
    var insns :- All(LinkedInsn, b.code.insns);
    match b.code.terminator
    case None => Some(BasicBlock(Name(b.id), insns, None))
    case Some(t) => (var term :- LinkedTerm(t); Some(BasicBlock(Name(b.id), insns, Some(term))))
  }

  // ----- Functions and packages -----

  // The NATIVE flag is the second bit.
  predicate IsNative(flags: Int32) {
    flags / 2 % 2 == 1
  }

  lemma NativeIsABit(flags: Int32)
    ensures IsNative(flags) <==> Bit(Unsigned(flags), 1) == 1
  {
    var w := Unsigned(flags);
    assert Pow2(1) == 2;
    assert w / 2 % 2 == flags / 2 % 2;
  }

  function LinkedFunction(f: FunctionReader.Function): Option<Function> {
    var params :- All(LinkedParam, f.requiredParams);
    var vars :- All(LinkedVar, f.localVars);
    var blocks :- All(LinkedBlock, f.basicBlocks);
    match f.returnVar
    case None => Some(Function(Name(f.name), IsNative(f.flags), None, params, vars, blocks))
    case Some(v) =>
      (var r :- LinkedVar(v);
       Some(Function(Name(f.name), IsNative(f.flags), Some(r), params, vars, blocks)))
  }

  function Linked(p: PackageReader.Package): Option<Package> {
    var globals :- All(LinkedVar, p.globalVars);
    var functions :- All(LinkedFunction, p.functions);
    Some(Package(globals, functions))
  }

  // Linking drops and adds nothing: functions, their blocks and global variables keep
  // their number, their order and their names.
  lemma LinkedKeepsNames(p: PackageReader.Package)
    requires Linked(p).Some?
    ensures var q := Linked(p).value;
      && |q.functions| == |p.functions| && |q.globals| == |p.globalVars|
      && (forall i :: 0 <= i < |p.globalVars| ==> q.globals[i].name == Name(p.globalVars[i].name))
      && (forall i :: 0 <= i < |p.functions| ==> SameNames(p.functions[i], q.functions[i]))
  {
    hide All, Name, LinkedTag, LinkedKind;
    var q := Linked(p).value;
    forall i | 0 <= i < |p.functions|
      ensures SameNames(p.functions[i], q.functions[i])
    {
      LinkedKeepsBlocks(p.functions[i]);
    }
  }

  predicate SameNames(f: FunctionReader.Function, g: Function) {
    && g.name == Name(f.name) && |g.blocks| == |f.basicBlocks|
    && forall j :: 0 <= j < |f.basicBlocks| ==> SameBlock(f.basicBlocks[j], g.blocks[j])
  }

  predicate SameBlock(b: InsnReader.BasicBlock, c: BasicBlock) {
    c.id == Name(b.id) && |c.insns| == |b.code.insns| && (c.terminator.Some? <==> b.code.terminator.Some?)
  }

  lemma LinkedKeepsBlocks(f: FunctionReader.Function)
    requires LinkedFunction(f).Some?
    ensures SameNames(f, LinkedFunction(f).value)
  {
    hide All, Name, LinkedInsn, LinkedTerm, LinkedParam, LinkedVar;
    var g := LinkedFunction(f).value;
    forall j | 0 <= j < |f.basicBlocks|
      ensures SameBlock(f.basicBlocks[j], g.blocks[j])
    {
      assert LinkedBlock(f.basicBlocks[j]) == Some(g.blocks[j]);
    }
  }
}

// What well-formed packages may contain: the instructions and terminators of the
// language, by the types of their operands.
module Admission {
  import opened Options
  import opened Bir

  predicate Word(tag: TypeTag) {
    tag == AnyTag || tag == AnyDataTag || tag == UnionTag
  }

  predicate Number(tag: TypeTag) {
    tag == IntTag || tag == FloatTag
  }

  lemma OperatorAdmittedIff(p: Package, f: Function, kind: BinaryKind, lhs: Operand, a: Operand, b: Operand,
                            l: TypeTag, tag: TypeTag)
    requires Writable(p, f, lhs, l) && Readable(p, f, a, tag) && Readable(p, f, b, tag)
    ensures WfInsn(p, f, Binary(kind, lhs, a, b)) <==>
      || (kind in {Add, Sub, Mul, Div, Mod} && Number(tag) && l == tag)
      || (kind in {NotEqual, GreaterThan, GreaterEqual, LessThan, LessEqual} && Number(tag) && l == BooleanTag)
      || (kind == Equal && (Number(tag) || tag == NilTag) && l == BooleanTag)
      || (kind == BitwiseXor && tag == IntTag && l == IntTag)
  {
    hide IsMainResult, VarOf;
  }

  lemma UnaryAdmittedIff(p: Package, f: Function, op: UnaryKind, lhs: Operand, a: Operand, l: TypeTag, tag: TypeTag)
    requires Writable(p, f, lhs, l) && Readable(p, f, a, tag)
    ensures WfInsn(p, f, Unary(op, lhs, a)) <==> l == tag && tag == if op == Not then BooleanTag else IntTag
  {
    hide IsMainResult, VarOf;
  }

  lemma CastAdmittedIff(p: Package, f: Function, lhs: Operand, a: Operand, l: TypeTag, tag: TypeTag)
    requires Writable(p, f, lhs, l) && Readable(p, f, a, tag)
    ensures WfInsn(p, f, TypeCast(lhs, a)) <==>
      || (Word(tag) && (Word(l) || l == BooleanTag || l == IntTag))
      || ((tag == BooleanTag || tag == IntTag) && Word(l))
      || (tag == FloatTag && l == IntTag)
  {
    hide IsMainResult, VarOf;
  }

  lemma MoveAdmittedIff(p: Package, f: Function, lhs: Operand, a: Operand, l: TypeTag, tag: TypeTag)
    requires Writable(p, f, lhs, l) && Readable(p, f, a, tag)
    ensures WfInsn(p, f, Move(lhs, a)) <==> l == tag || (Word(l) && Word(tag))
  {
    hide IsMainResult, VarOf;
  }

  // Any constant may be loaded into a local variable of its type, the result of main
  // included.
  lemma ConstantAdmitted(p: Package, f: Function, lhs: Operand, l: TypeTag, c: Constant)
    requires Writable(p, f, lhs, l) && !lhs.kind.GlobalKind?
    requires match c
      case IntConst(_) => l == IntTag
      case FloatConst(_) => l == FloatTag
      case ByteConst(_) => l == ByteTag
      case BooleanConst(_) => l == BooleanTag
      case StringConst(_) => l == StringTag
      case NilConst => l == NilTag
    ensures WfInsn(p, f, ConstLoad(lhs, c))
  {
  }

  // Mappings of integers: with string keys and integer values, read into a word.
  lemma MappingsAdmitted(p: Package, f: Function, m: Operand, source: Operand, key: Operand, value: Operand,
                         word: Operand, l: TypeTag)
    requires IntMap(p, f, m) && IntMap(p, f, source) && Readable(p, f, key, StringTag)
    requires Readable(p, f, value, IntTag) && Writable(p, f, word, l) && Word(l)
    ensures WfInsn(p, f, NewMap(m, [])) && WfInsn(p, f, NewMap(m, [KeyValue(key, value), SpreadField(source)]))
    ensures WfInsn(p, f, MapStore(m, key, value)) && WfInsn(p, f, MapLoad(word, key, m))
  {
    hide TagOf, VarOf, IsMainResult;
  }

  lemma FieldsAdmitted(p: Package, f: Function, m: Operand, fields: seq<MapField>, more: seq<MapField>)
    requires WfInsn(p, f, NewMap(m, fields)) && WfInsn(p, f, NewMap(m, more))
    ensures WfInsn(p, f, NewMap(m, fields + more))
  {
    hide WfField, IntMap;
    var all := fields + more;
    forall j | 0 <= j < |all|
      ensures WfField(p, f, m, all[j])
    {
      if j >= |fields| {
        assert all[j] == more[j - |fields|];
      }
    }
  }

  // A call of any function but main that declares a result, with arguments of the
  // types of its parameters.
  lemma CallAdmitted(p: Package, f: Function, g: Function, args: seq<Operand>, lhs: Operand, next: string)
    requires FindFunction(p.functions, g.name) == Some(g) && g.name != "main" && g.returnVar.Some?
    requires |args| == |g.params| && forall i :: 0 <= i < |args| ==> Readable(p, f, args[i], g.params[i].tag)
    requires Writable(p, f, lhs, g.returnVar.value.tag) && HasBlock(f, next)
    ensures WfTerm(p, f, Call(g.name, args, lhs, next))
  {
    hide Readable, Writable, HasBlock;
  }

  lemma BranchAdmitted(p: Package, f: Function, cond: Operand, onTrue: string, onFalse: string)
    requires Readable(p, f, cond, BooleanTag) && HasBlock(f, onTrue) && HasBlock(f, onFalse)
    ensures WfTerm(p, f, CondBranch(cond, onTrue, onFalse)) && WfTerm(p, f, Goto(onTrue)) && WfTerm(p, f, Return)
  {
  }
}

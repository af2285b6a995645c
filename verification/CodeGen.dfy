// The code generator: classes that append instructions to the current block of a
// builder, each proved to emit what Lowering defines.
module CodeGen {
  import opened Options
  import opened Ir
  import opened Bir
  import opened Lowering

  // What a builder holds: the blocks of the function, the entry block first, the
  // block it appends to, and the next unused temporary.
  datatype Draft = Draft(blocks: seq<IrBlock>, at: nat, next: nat)

  predicate Placed(d: Draft) {
    d.at < |d.blocks|
  }

  predicate SameIds(a: seq<IrBlock>, b: seq<IrBlock>) {
    |a| == |b| && forall i :: 0 <= i < |a| ==> a[i].id == b[i].id
  }

  // The draft after `code`, which creates `temps` temporaries, has been appended.
  function Plus(d: Draft, code: seq<Instr>, temps: nat): (r: Draft)
    requires Placed(d)
    ensures Placed(r) && r.next == d.next + temps && r.at == d.at && SameIds(d.blocks, r.blocks)
  {
    var b := d.blocks[d.at];
    Draft(d.blocks[d.at := IrBlock(b.id, b.instrs + code)], d.at, d.next + temps)
  }

  lemma PlusPlus(d: Draft, a: seq<Instr>, i: nat, b: seq<Instr>, j: nat)
    requires Placed(d)
    ensures Plus(Plus(d, a, i), b, j) == Plus(d, a + b, i + j)
  {
    assert d.blocks[d.at].instrs + a + b == d.blocks[d.at].instrs + (a + b);
  }

  lemma PlusNothing(d: Draft)
    requires Placed(d)
    ensures Plus(d, [], 0) == d
  {
    assert d.blocks[d.at].instrs + [] == d.blocks[d.at].instrs;
  }

  lemma Plus2(d: Draft, a: Instr, i: nat, b: Instr, j: nat)
    requires Placed(d)
    ensures Plus(Plus(d, [a], i), [b], j) == Plus(d, [a, b], i + j)
  {
    PlusPlus(d, [a], i, [b], j);
    assert [a] + [b] == [a, b];
  }

  lemma Plus3(d: Draft, a: Instr, i: nat, b: Instr, j: nat, c: Instr, k: nat)
    requires Placed(d)
    ensures Plus(Plus(Plus(d, [a], i), [b], j), [c], k) == Plus(d, [a, b, c], i + j + k)
  {
    PlusPlus(d, [a], i, [b], j);
    PlusPlus(d, [a] + [b], i + j, [c], k);
    assert [a] + [b] + [c] == [a, b, c];
  }

  lemma Plus4(d: Draft, a: Instr, i: nat, b: Instr, j: nat, c: Instr, k: nat, e: Instr, l: nat)
    requires Placed(d)
    ensures Plus(Plus(Plus(Plus(d, [a], i), [b], j), [c], k), [e], l) == Plus(d, [a, b, c, e], i + j + k + l)
  {
    Plus3(d, a, i, b, j, c, k);
    PlusPlus(d, [a, b, c], i + j + k, [e], l);
    assert [a, b, c] + [e] == [a, b, c, e];
  }

  class IrBuilder {
    var blocks: seq<IrBlock>
    var at: nat
    var next: nat

    ghost function State(): Draft
      reads this
    {
      Draft(blocks, at, next)
    }

    constructor ()
      ensures State() == Draft([], 0, 0)
    {
      blocks, at, next := [], 0, 0;
    }

    method CreateBlock(id: string) returns (index: nat)
      modifies this
      ensures index == |old(blocks)|
      ensures State() == Draft(old(blocks) + [IrBlock(id, [])], old(at), old(next))
    {
      index := |blocks|;
      blocks := blocks + [IrBlock(id, [])];
    }

    method SetInsertPoint(index: nat)
      requires index < |blocks|
      modifies this
      ensures State() == Draft(old(blocks), index, old(next))
    {
      at := index;
    }

    method Insert(i: Instr)
      requires Placed(State())
      modifies this
      ensures State() == Plus(old(State()), [i], 0)
    {
      blocks := blocks[at := IrBlock(blocks[at].id, blocks[at].instrs + [i])];
    }

    method CreateLoad(r: Ref) returns (v: Opd)
      requires Placed(State())
      modifies this
      ensures v == Tmp(old(next)) && State() == Plus(old(State()), [Load(old(next), r)], 1)
    {
      v := Tmp(next);
      Insert(Load(next, r));
      next := next + 1;
    }

    method CreateStore(v: Opd, r: Ref)
      requires Placed(State())
      modifies this
      ensures State() == Plus(old(State()), [StoreTo(v, r)], 0)
    {
      Insert(StoreTo(v, r));
    }

    method CreateOp(op: IrOp, a: Opd, b: Opd) returns (v: Opd)
      requires Placed(State())
      modifies this
      ensures v == Tmp(old(next)) && State() == Plus(old(State()), [Op(old(next), op, a, b)], 1)
    {
      v := Tmp(next);
      Insert(Op(next, op, a, b));
      next := next + 1;
    }

    method CreateFPToSI(a: Opd) returns (v: Opd)
      requires Placed(State())
      modifies this
      ensures v == Tmp(old(next)) && State() == Plus(old(State()), [FPToSI(old(next), a)], 1)
    {
      v := Tmp(next);
      Insert(FPToSI(next, a));
      next := next + 1;
    }

    // Casting a pointer to a variable. No instruction is needed for the type it has,
    // nor for a global, which is a constant.
    method CreateBitCast(r: Ref, from: LlvmType, to: LlvmType) returns (v: Option<Opd>)
      requires Placed(State())
      modifies this
      ensures if r.GlobalRef? || from == to then v.None? && State() == old(State())
        else v == Some(Tmp(old(next))) && State() == Plus(old(State()), [BitCast(old(next), r)], 1)
    {
      if r.GlobalRef? || from == to {
        return None;
      }
      v := Some(Tmp(next));
      Insert(BitCast(next, r));
      next := next + 1;
    }

    method CreateRuntimeCall(fn: Runtime, args: seq<Opd>) returns (v: Opd)
      requires Placed(State())
      modifies this
      ensures v == Tmp(old(next)) && State() == Plus(old(State()), [CallRt(old(next), fn, args)], 1)
    {
      v := Tmp(next);
      Insert(CallRt(next, fn, args));
      next := next + 1;
    }

    method CreateCall(callee: string, args: seq<Opd>) returns (v: Opd)
      requires Placed(State())
      modifies this
      ensures v == Tmp(old(next)) && State() == Plus(old(State()), [CallFn(old(next), callee, args)], 1)
    {
      v := Tmp(next);
      Insert(CallFn(next, callee, args));
      next := next + 1;
    }

    // Branches name the block at an index.
    method CreateBr(index: nat)
      requires Placed(State()) && index < |blocks|
      modifies this
      ensures State() == Plus(old(State()), [Br(old(blocks[index].id))], 0)
    {
      Insert(Br(blocks[index].id));
    }

    method CreateCondBr(c: Opd, onTrue: nat, onFalse: nat)
      requires Placed(State()) && onTrue < |blocks| && onFalse < |blocks|
      modifies this
      ensures State() == Plus(old(State()), [CondBr(c, old(blocks[onTrue].id), old(blocks[onFalse].id))], 0)
    {
      Insert(CondBr(c, blocks[onTrue].id, blocks[onFalse].id));
    }

    method CreateAlloca(name: string) returns (r: Ref)
      requires Placed(State())
      modifies this
      ensures r == LocalRef(name) && State() == Plus(old(State()), [Alloca(LocalRef(name))], 0)
    {
      r := LocalRef(name);
      Insert(Alloca(r));
    }

    // A cell for the result of a map load.
    method CreateOutCell() returns (r: Ref)
      requires Placed(State())
      modifies this
      ensures r == OutRef(old(next)) && State() == Plus(old(State()), [Alloca(OutRef(old(next)))], 1)
    {
      r := OutRef(next);
      Insert(Alloca(r));
      next := next + 1;
    }

    method CreateLookupCall(table: Opd, key: Opd, out: Ref) returns (v: Opd)
      requires Placed(State())
      modifies this
      ensures v == Tmp(old(next)) && State() == Plus(old(State()), [CallLookup(old(next), table, key, out)], 1)
    {
      v := Tmp(next);
      Insert(CallLookup(next, table, key, out));
      next := next + 1;
    }
  }

  // The translation of one function.
  class FunctionCodeGen {
    const package: Package
    const fn: Function
    const builder: IrBuilder
    var localVarRefs: map<string, Ref>
    var basicBlocksMap: map<string, nat>

    // The builder is in a block, and the cells of the local variables are known.
    ghost predicate Prepared()
      reads this, builder
    {
      && Placed(builder.State())
      && forall x :: FindVar(fn.localVars, x).Some? ==> x in localVarRefs && localVarRefs[x] == LocalRef(x)
    }

    constructor (p: Package, f: Function)
      ensures package == p && fn == f && fresh(builder)
      ensures localVarRefs == map[] && basicBlocksMap == map[]
      ensures builder.State() == Draft([], 0, 0)
    {
      package, fn := p, f;
      builder := new IrBuilder();
      localVarRefs, basicBlocksMap := map[], map[];
    }

    method GetLocalOrGlobalVal(op: Operand) returns (r: Ref)
      requires Prepared() && TagOf(package, fn, op).Some?
      ensures r == RefOf(op)
    {
      if op.kind == GlobalKind {
        return GlobalRef(op.name);
      }
      return localVarRefs[op.name];
    }

    method CreateTempVal(op: Operand) returns (v: Opd)
      requires Prepared() && TagOf(package, fn, op).Some?
      modifies builder
      ensures Prepared() && v == Tmp(old(builder.next))
      ensures builder.State() == Plus(old(builder.State()), [LoadOf(old(builder.next), op)], 1)
    {
      var variable := GetLocalOrGlobalVal(op);
      v := builder.CreateLoad(variable);
    }

    // ----- Instructions -----

    method VisitMove(lhs: Operand, rhs: Operand)
      requires Prepared() && WfInsn(package, fn, Move(lhs, rhs))
      modifies builder
      ensures Prepared()
      ensures builder.State() ==
        Plus(old(builder.State()), LowerInsn(package, fn, Move(lhs, rhs), old(builder.next)), 1)
    {
      hide Plus;
      ghost var d := builder.State();
      var lhsRef := GetLocalOrGlobalVal(lhs);
      var rhsVar := CreateTempVal(rhs);
      builder.CreateStore(rhsVar, lhsRef);
      Plus2(d, LoadOf(d.next, rhs), 1, StoreTo(Tmp(d.next), lhsRef), 0);
    }

    // The switch over the operator, and over the type of the first operand.
    method VisitBinary(kind: BinaryKind, lhs: Operand, rhs1: Operand, rhs2: Operand)
      requires Prepared() && WfInsn(package, fn, Binary(kind, lhs, rhs1, rhs2))
      modifies builder
      ensures Prepared()
      ensures builder.State() ==
        Plus(old(builder.State()), LowerInsn(package, fn, Binary(kind, lhs, rhs1, rhs2), old(builder.next)), 3)
    {
      hide Plus, LowerUnary, LowerConst, LowerCast, LowerFields, LowerStore, LowerField, LowerMapLoad, NamesMainResult;
      ghost var d := builder.State();
      var lhsRef := GetLocalOrGlobalVal(lhs);
      var op1 := CreateTempVal(rhs1);
      var op2 := CreateTempVal(rhs2);
      var rhsType := TagOf(package, fn, rhs1).value;
      var op: IrOp;
      match kind {
        case Add => if rhsType == IntTag { op := AddOp; } else { op := FAddOp; }
        case Sub => if rhsType == IntTag { op := SubOp; } else { op := FSubOp; }
        case Mul => if rhsType == IntTag { op := MulOp; } else { op := FMulOp; }
        case Div => if rhsType == IntTag { op := UDivOp; } else { op := FDivOp; }
        case Mod => if rhsType == IntTag { op := URemOp; } else { op := FRemOp; }
        case GreaterThan => if rhsType == IntTag { op := CmpOp(SGT); } else { op := CmpOp(OGT); }
        case GreaterEqual => if rhsType == IntTag { op := CmpOp(SGE); } else { op := CmpOp(OGE); }
        case LessThan => if rhsType == IntTag { op := CmpOp(SLT); } else { op := CmpOp(OLT); }
        case LessEqual => if rhsType == IntTag { op := CmpOp(SLE); } else { op := CmpOp(OLE); }
        case Equal => if rhsType == IntTag || rhsType == NilTag { op := CmpOp(EQ); } else { op := CmpOp(OEQ); }
        case NotEqual => if rhsType == IntTag { op := CmpOp(NE); } else { op := CmpOp(ONE); }
        case BitwiseXor => op := XorOp;
      }
      var result := builder.CreateOp(op, op1, op2);
      builder.CreateStore(result, lhsRef);
      Plus4(d, LoadOf(d.next, rhs1), 1, LoadOf(d.next + 1, rhs2), 1, Op(d.next + 2, op, op1, op2), 1,
            StoreTo(result, lhsRef), 0);
    }

    method VisitUnary(op: UnaryKind, lhs: Operand, rhs: Operand)
      requires Prepared() && WfInsn(package, fn, Unary(op, lhs, rhs))
      modifies builder
      ensures Prepared()
      ensures builder.State() ==
        Plus(old(builder.State()), LowerInsn(package, fn, Unary(op, lhs, rhs), old(builder.next)), 2)
    {
      hide Plus;
      ghost var d := builder.State();
      var lhsRef := GetLocalOrGlobalVal(lhs);
      var rhsVar := CreateTempVal(rhs);
      var result: Opd;
      match op {
        case Not => result := builder.CreateOp(XorOp, rhsVar, Lit(I1(true)));
        case Neg => result := builder.CreateOp(SubOp, Lit(I64(0)), rhsVar);
      }
      builder.CreateStore(result, lhsRef);
      var i :=
        if op.Not? then Op(d.next + 1, XorOp, rhsVar, Lit(I1(true)))
        else Op(d.next + 1, SubOp, Lit(I64(0)), rhsVar);
      Plus3(d, LoadOf(d.next, rhs), 1, i, 1, StoreTo(result, lhsRef), 0);
    }

    method VisitConstLoad(lhs: Operand, value: Constant)
      requires Prepared() && Writable(package, fn, lhs, ConstTag(value))
      modifies builder
      ensures Prepared()
      ensures builder.State() ==
        Plus(old(builder.State()), LowerInsn(package, fn, ConstLoad(lhs, value), old(builder.next)),
             InsnTemps(package, fn, ConstLoad(lhs, value)))
    {
      hide Plus;
      ghost var d := builder.State();
      var constRef: Opd;
      match value {
        case IntConst(v) => constRef := Lit(I64(v));
        case FloatConst(v) => constRef := Lit(F64(v));
        case ByteConst(v) => constRef := Lit(I8(v));
        case BooleanConst(v) => constRef := Lit(I1(v));
        case StringConst(v) => constRef := Lit(StrPtr(v));
        case NilConst =>
          if NamesMainResult(fn, lhs) {
            PlusNothing(d);
            return;
          }
          constRef := builder.CreateLoad(NilRef);
      }
      var lhsRef := GetLocalOrGlobalVal(lhs);
      builder.CreateStore(constRef, lhsRef);
      if value.NilConst? {
        Plus2(d, Load(d.next, NilRef), 1, StoreTo(Tmp(d.next), lhsRef), 0);
      }
    }

    // A call of one of the four conversion functions between a load and a store.
    method Conversion(lhs: Operand, rhs: Operand, f: Runtime)
      requires Prepared() && TagOf(package, fn, lhs).Some? && TagOf(package, fn, rhs).Some?
      modifies builder
      ensures Prepared()
      ensures builder.State() == Plus(old(builder.State()), Convert(lhs, rhs, f, old(builder.next)), 2)
    {
      hide Plus;
      ghost var d := builder.State();
      var lhsRef := GetLocalOrGlobalVal(lhs);
      var rhsRef := GetLocalOrGlobalVal(rhs);
      var rhsValue := builder.CreateLoad(rhsRef);
      var callResult := builder.CreateRuntimeCall(f, [rhsValue]);
      builder.CreateStore(callResult, lhsRef);
      Plus3(d, LoadOf(d.next, rhs), 1, CallRt(d.next + 1, f, [rhsValue]), 1, StoreTo(callResult, lhsRef), 0);
    }

    method VisitTypeCast(lhs: Operand, rhs: Operand)
      requires Prepared() && TagOf(package, fn, lhs).Some? && TagOf(package, fn, rhs).Some?
      requires CastSupported(TagOf(package, fn, lhs).value, TagOf(package, fn, rhs).value)
      modifies builder
      ensures Prepared()
      ensures builder.State() ==
        Plus(old(builder.State()), LowerInsn(package, fn, TypeCast(lhs, rhs), old(builder.next)),
             InsnTemps(package, fn, TypeCast(lhs, rhs)))
    {
      hide Plus, LowerUnary, LowerConst, LowerFields, LowerStore, LowerField, LowerMapLoad, NamesMainResult, BinaryOpOf;
      ghost var d := builder.State();
      var lhsType := TagOf(package, fn, lhs).value;
      var rhsType := TagOf(package, fn, rhs).value;
      if IsBalValue(rhsType) {
        if IsBalValue(lhsType) {
          var lhsRef := GetLocalOrGlobalVal(lhs);
          var rhsVar := CreateTempVal(rhs);
          builder.CreateStore(rhsVar, lhsRef);
          Plus2(d, LoadOf(d.next, rhs), 1, StoreTo(Tmp(d.next), lhsRef), 0);
          return;
        }
        if lhsType == BooleanTag {
          Conversion(lhs, rhs, AnyToBoolFn);
        } else {
          Conversion(lhs, rhs, AnyToIntFn);
        }
      } else if IsBalValue(lhsType) && rhsType == BooleanTag {
        Conversion(lhs, rhs, BoolToAnyFn);
      } else if IsBalValue(lhsType) && rhsType == IntTag {
        Conversion(lhs, rhs, IntToAnyFn);
      } else if lhsType == IntTag && rhsType == FloatTag {
        var lhsRef := GetLocalOrGlobalVal(lhs);
        var rhsLoad := CreateTempVal(rhs);
        var lhsLoad := CreateTempVal(lhs);
        var castResult := builder.CreateFPToSI(rhsLoad);
        builder.CreateStore(castResult, lhsRef);
        Plus4(d, LoadOf(d.next, rhs), 1, LoadOf(d.next + 1, lhs), 1, FPToSI(d.next + 2, rhsLoad), 1,
              StoreTo(castResult, lhsRef), 0);
      } else {
        var rhsRef := GetLocalOrGlobalVal(rhs);
        var dataCast := builder.CreateBitCast(rhsRef, TypeOf(rhsType), TypeOf(lhsType));
        PlusNothing(d);
      }
    }

    method StoreEntry(lhs: Operand, key: Operand, value: Operand)
      requires Prepared() && TagOf(package, fn, lhs).Some?
      requires TagOf(package, fn, key).Some? && TagOf(package, fn, value).Some?
      modifies builder
      ensures Prepared()
      ensures builder.State() == Plus(old(builder.State()), LowerStore(lhs, key, value, old(builder.next)), 4)
    {
      hide Plus;
      ghost var d := builder.State();
      var mapValue := CreateTempVal(value);
      var mapTemp := CreateTempVal(lhs);
      var keyTemp := CreateTempVal(key);
      var unused := builder.CreateRuntimeCall(MapInsertFn, [mapTemp, keyTemp, mapValue]);
      Plus4(d, LoadOf(d.next, value), 1, LoadOf(d.next + 1, lhs), 1, LoadOf(d.next + 2, key), 1,
            CallRt(d.next + 3, MapInsertFn, [mapTemp, keyTemp, mapValue]), 1);
    }

    method SpreadEntry(lhs: Operand, expr: Operand)
      requires Prepared() && TagOf(package, fn, lhs).Some? && TagOf(package, fn, expr).Some?
      modifies builder
      ensures Prepared()
      ensures builder.State() ==
        Plus(old(builder.State()), LowerField(lhs, SpreadField(expr), old(builder.next)), 3)
    {
      hide Plus;
      ghost var d := builder.State();
      var lhsTmp := CreateTempVal(lhs);
      var exprTmp := CreateTempVal(expr);
      var unused := builder.CreateRuntimeCall(MapSpreadFn, [lhsTmp, exprTmp]);
      Plus3(d, LoadOf(d.next, lhs), 1, LoadOf(d.next + 1, expr), 1,
            CallRt(d.next + 2, MapSpreadFn, [lhsTmp, exprTmp]), 1);
    }

    method MapCreateTranslate(lhs: Operand)
      requires Prepared() && TagOf(package, fn, lhs).Some?
      modifies builder
      ensures Prepared()
      ensures builder.State() == Plus(old(builder.State()),
        [CallRt(old(builder.next), MapCreateFn, []), StoreTo(Tmp(old(builder.next)), RefOf(lhs))], 1)
    {
      hide Plus;
      ghost var d := builder.State();
      var lhsRef := GetLocalOrGlobalVal(lhs);
      var newMap := builder.CreateRuntimeCall(MapCreateFn, []);
      builder.CreateStore(newMap, lhsRef);
      Plus2(d, CallRt(d.next, MapCreateFn, []), 1, StoreTo(newMap, lhsRef), 0);
    }

    // One call for each initialiser, in order.
    method MapInitTranslate(lhs: Operand, fields: seq<MapField>)
      requires Prepared() && forall j :: 0 <= j < |fields| ==> WfField(package, fn, lhs, fields[j])
      modifies builder
      ensures Prepared()
      ensures builder.State() ==
        Plus(old(builder.State()), LowerFields(lhs, fields, old(builder.next)), FieldsTemps(fields))
    {
      hide Plus, LowerFields, FieldsTemps;
      ghost var d := builder.State();
      var i := 0;
      PlusNothing(d);
      NoFields(lhs, fields, d.next);
      while i < |fields|
        invariant i <= |fields| && Prepared()
        invariant builder.State() == Plus(d, LowerFields(lhs, fields[..i], d.next), FieldsTemps(fields[..i]))
      {
        ghost var here := builder.State();
        assert WfField(package, fn, lhs, fields[i]);
        if fields[i].SpreadField? {
          SpreadEntry(lhs, fields[i].expr);
        } else {
          StoreEntry(lhs, fields[i].key, fields[i].value);
        }
        OneMoreField(lhs, fields, i, d.next);
        PlusPlus(d, LowerFields(lhs, fields[..i], d.next), FieldsTemps(fields[..i]),
                 LowerField(lhs, fields[i], here.next), FieldTemps(fields[i]));
        i := i + 1;
      }
      assert fields[..i] == fields;
    }

    method VisitStructure(lhs: Operand, fields: seq<MapField>)
      requires Prepared() && WfInsn(package, fn, NewMap(lhs, fields))
      modifies builder
      ensures Prepared()
      ensures builder.State() ==
        Plus(old(builder.State()), LowerInsn(package, fn, NewMap(lhs, fields), old(builder.next)),
             InsnTemps(package, fn, NewMap(lhs, fields)))
    {
      hide Plus;
      ghost var d := builder.State();
      MapCreateTranslate(lhs);
      ghost var created := [CallRt(d.next, MapCreateFn, []), StoreTo(Tmp(d.next), RefOf(lhs))];
      if fields == [] {
        assert created + LowerFields(lhs, fields, d.next + 1) == created;
        return;
      }
      MapInitTranslate(lhs, fields);
      PlusPlus(d, created, 1, LowerFields(lhs, fields, d.next + 1), FieldsTemps(fields));
    }

    method VisitMapStore(lhs: Operand, key: Operand, rhs: Operand)
      requires Prepared() && WfInsn(package, fn, MapStore(lhs, key, rhs))
      modifies builder
      ensures Prepared()
      ensures builder.State() ==
        Plus(old(builder.State()), LowerInsn(package, fn, MapStore(lhs, key, rhs), old(builder.next)), 4)
    {
      StoreEntry(lhs, key, rhs);
    }

    // The lookup call, its result in a new cell.
    method LookupIntoCell(key: Operand, rhs: Operand) returns (outParam: Ref)
      requires Prepared() && TagOf(package, fn, key).Some? && TagOf(package, fn, rhs).Some?
      modifies builder
      ensures Prepared() && outParam == OutRef(old(builder.next))
      ensures var n := old(builder.next);
        builder.State() == Plus(old(builder.State()),
          [Alloca(outParam), LoadOf(n + 1, rhs), LoadOf(n + 2, key),
           CallLookup(n + 3, Tmp(n + 1), Tmp(n + 2), outParam)], 4)
    {
      hide Plus;
      ghost var d := builder.State();
      outParam := builder.CreateOutCell();
      var rhsTemp := CreateTempVal(rhs);
      var keyTemp := CreateTempVal(key);
      var retVal := builder.CreateLookupCall(rhsTemp, keyTemp, outParam);
      Plus4(d, Alloca(outParam), 1, LoadOf(d.next + 1, rhs), 1, LoadOf(d.next + 2, key), 1,
            CallLookup(d.next + 3, rhsTemp, keyTemp, outParam), 1);
    }

    // What the cell holds, boxed, in the target.
    method BoxCell(outParam: Ref, lhsRef: Ref)
      requires Prepared()
      modifies builder
      ensures Prepared()
      ensures var n := old(builder.next);
        builder.State() == Plus(old(builder.State()),
          [Load(n, outParam), CallRt(n + 1, IntToAnyFn, [Tmp(n)]), StoreTo(Tmp(n + 1), lhsRef)], 2)
    {
      hide Plus;
      ghost var d := builder.State();
      var value := builder.CreateLoad(outParam);
      var balValue := builder.CreateRuntimeCall(IntToAnyFn, [value]);
      builder.CreateStore(balValue, lhsRef);
      Plus3(d, Load(d.next, outParam), 1, CallRt(d.next + 1, IntToAnyFn, [value]), 1, StoreTo(balValue, lhsRef), 0);
    }

    method VisitMapLoad(lhs: Operand, key: Operand, rhs: Operand)
      requires Prepared() && WfInsn(package, fn, MapLoad(lhs, key, rhs))
      modifies builder
      ensures Prepared()
      ensures builder.State() ==
        Plus(old(builder.State()), LowerInsn(package, fn, MapLoad(lhs, key, rhs), old(builder.next)), 6)
    {
      hide Plus;
      ghost var d := builder.State();
      var lhsRef := GetLocalOrGlobalVal(lhs);
      var outParam := LookupIntoCell(key, rhs);
      BoxCell(outParam, lhsRef);
      ghost var n := d.next;
      ghost var half := [Alloca(outParam), LoadOf(n + 1, rhs), LoadOf(n + 2, key),
                         CallLookup(n + 3, Tmp(n + 1), Tmp(n + 2), outParam)];
      ghost var rest := [Load(n + 4, outParam), CallRt(n + 5, IntToAnyFn, [Tmp(n + 4)]), StoreTo(Tmp(n + 5), lhsRef)];
      PlusPlus(d, half, 4, rest, 2);
      assert half + rest == LowerMapLoad(lhs, key, rhs, n);
    }

    // Double dispatch on the instruction.
    method VisitInsn(i: Insn)
      requires Prepared() && WfInsn(package, fn, i) && !i.FieldInit?
      modifies builder
      ensures Prepared()
      ensures builder.State() ==
        Plus(old(builder.State()), LowerInsn(package, fn, i, old(builder.next)), InsnTemps(package, fn, i))
    {
      match i {
        case Move(lhs, rhs) => VisitMove(lhs, rhs);
        case Binary(kind, lhs, rhs1, rhs2) => VisitBinary(kind, lhs, rhs1, rhs2);
        case Unary(op, lhs, rhs) => VisitUnary(op, lhs, rhs);
        case ConstLoad(lhs, value) => VisitConstLoad(lhs, value);
        case TypeCast(lhs, rhs) => VisitTypeCast(lhs, rhs);
        case NewMap(lhs, fields) => VisitStructure(lhs, fields);
        case MapStore(lhs, key, rhs) => VisitMapStore(lhs, key, rhs);
        case MapLoad(lhs, key, rhs) => VisitMapLoad(lhs, key, rhs);
      }
    }

    // ----- Terminators -----

    // Every block of the function has been created and is known by its id.
    ghost predicate Labelled()
      reads this, builder
    {
      Prepared() && forall id :: HasBlock(fn, id) ==> BlockKnown(id)
    }

    ghost predicate BlockKnown(id: string)
      reads this, builder
    {
      id in basicBlocksMap && basicBlocksMap[id] < |builder.blocks| && builder.blocks[basicBlocksMap[id]].id == id
    }

    method VisitGoto(next: string)
      requires Labelled() && WfTerm(package, fn, Goto(next))
      modifies builder
      ensures Labelled()
      ensures builder.State() == Plus(old(builder.State()), LowerTerm(fn, Goto(next), old(builder.next)), 0)
    {
      hide Plus;
      assert BlockKnown(next);
      builder.CreateBr(basicBlocksMap[next]);
      StillLabelled(old(builder.blocks));
    }

    method VisitCondBranch(cond: Operand, onTrue: string, onFalse: string)
      requires Labelled() && WfTerm(package, fn, CondBranch(cond, onTrue, onFalse))
      modifies builder
      ensures Labelled()
      ensures builder.State() ==
        Plus(old(builder.State()), LowerTerm(fn, CondBranch(cond, onTrue, onFalse), old(builder.next)), 2)
    {
      hide Plus;
      ghost var d := builder.State();
      assert BlockKnown(onTrue) && BlockKnown(onFalse);
      var lhsTemp := CreateTempVal(cond);
      var condition := builder.CreateOp(CmpOp(NE), lhsTemp, Lit(I1(false)));
      builder.CreateCondBr(condition, basicBlocksMap[onTrue], basicBlocksMap[onFalse]);
      Plus3(d, LoadOf(d.next, cond), 1, Op(d.next + 1, CmpOp(NE), lhsTemp, Lit(I1(false))), 1,
            CondBr(condition, onTrue, onFalse), 0);
      StillLabelled(d.blocks);
    }

    method VisitCall(callee: string, args: seq<Operand>, lhs: Operand, next: string)
      requires Labelled() && WfTerm(package, fn, Call(callee, args, lhs, next))
      modifies builder
      ensures Labelled()
      ensures builder.State() ==
        Plus(old(builder.State()), LowerTerm(fn, Call(callee, args, lhs, next), old(builder.next)), |args| + 1)
    {
      hide Plus;
      ghost var d := builder.State();
      var paramRefs: seq<Opd> := [];
      PlusNothing(d);
      var i := 0;
      while i < |args|
        invariant i <= |args| && Prepared()
        invariant paramRefs == TmpsFrom(d.next, i)
        invariant builder.State() == Plus(d, LoadsOf(d.next, args[..i]), i)
      {
        var g := FindFunction(package.functions, callee).value;
        assert Readable(package, fn, args[i], g.params[i].tag);
        var param := CreateTempVal(args[i]);
        paramRefs := paramRefs + [param];
        PlusPlus(d, LoadsOf(d.next, args[..i]), i, [LoadOf(d.next + i, args[i])], 1);
        assert LoadsOf(d.next, args[..i + 1]) == LoadsOf(d.next, args[..i]) + [LoadOf(d.next + i, args[i])];
        i := i + 1;
      }
      assert args[..i] == args;
      StillLabelled(d.blocks);
      ghost var mid := builder.State();
      var lhsRef := GetLocalOrGlobalVal(lhs);
      var result := builder.CreateCall(callee, paramRefs);
      builder.CreateStore(result, lhsRef);
      assert BlockKnown(next) by {
        StillLabelled(mid.blocks);
      }
      if next in basicBlocksMap {
        builder.CreateBr(basicBlocksMap[next]);
      }
      var tail := [CallFn(mid.next, callee, paramRefs), StoreTo(result, lhsRef), Br(next)];
      Plus3(mid, tail[0], 1, tail[1], 0, tail[2], 0);
      PlusPlus(d, LoadsOf(d.next, args), |args|, tail, 1);
      StillLabelled(mid.blocks);
    }

    method VisitReturn()
      requires Labelled()
      requires !IsMain(fn) ==> fn.returnVar.Some? && FindVar(fn.localVars, fn.returnVar.value.name).Some?
      modifies builder
      ensures Labelled()
      ensures builder.State() ==
        Plus(old(builder.State()), LowerTerm(fn, Return, old(builder.next)), TermTemps(fn, Return))
    {
      hide Plus;
      ghost var d := builder.State();
      if IsMain(fn) {
        builder.Insert(RetVoid);
      } else {
        var value := builder.CreateLoad(localVarRefs[fn.returnVar.value.name]);
        builder.Insert(Ret(value));
        Plus2(d, Load(d.next, LocalRef(fn.returnVar.value.name)), 1, Ret(value), 0);
      }
      StillLabelled(d.blocks);
    }

    // Appending to a block changes no label.
    lemma StillLabelled(before: seq<IrBlock>)
      requires Prepared() && SameIds(before, builder.blocks)
      requires forall id :: HasBlock(fn, id) ==>
        id in basicBlocksMap && basicBlocksMap[id] < |before| && before[basicBlocksMap[id]].id == id
      ensures Labelled()
    {
      forall id | HasBlock(fn, id)
        ensures BlockKnown(id)
      {
      }
    }

    method VisitTerminator(term: Terminator)
      requires Labelled() && WfTerm(package, fn, term)
      requires !IsMain(fn) ==> fn.returnVar.Some? && FindVar(fn.localVars, fn.returnVar.value.name).Some?
      modifies builder
      ensures Labelled()
      ensures builder.State() ==
        Plus(old(builder.State()), LowerTerm(fn, term, old(builder.next)), TermTemps(fn, term))
    {
      match term {
        case Goto(next) => VisitGoto(next);
        case CondBranch(cond, onTrue, onFalse) => VisitCondBranch(cond, onTrue, onFalse);
        case Call(callee, args, lhs, next) => VisitCall(callee, args, lhs, next);
        case Return => VisitReturn();
      }
    }

    // ----- Blocks and the function -----

    // The instructions of a block in order, then its terminator.
    method VisitBlock(b: BasicBlock)
      requires Labelled() && WfBlock(package, fn, b)
      requires !IsMain(fn) ==> fn.returnVar.Some? && FindVar(fn.localVars, fn.returnVar.value.name).Some?
      modifies builder
      ensures Labelled()
      ensures builder.State() ==
        Plus(old(builder.State()), Lowered(package, fn, b.insns, b.terminator, old(builder.next)),
             BlockTemps(package, fn, b.insns, b.terminator))
    {
      hide Plus, LowerInsn, LowerTerm, InsnTemps, TermTemps, WfInsn, WfTerm;
      ghost var d := builder.State();
      PlusNothing(d);
      var i := 0;
      while i < |b.insns|
        invariant i <= |b.insns| && Prepared() && SameIds(d.blocks, builder.blocks)
        invariant builder.State() ==
          Plus(d, Lowered(package, fn, b.insns[..i], None, d.next), BlockTemps(package, fn, b.insns[..i], None))
      {
        ghost var here := builder.State();
        assert WfInsn(package, fn, b.insns[i]) && !b.insns[i].FieldInit?;
        VisitInsn(b.insns[i]);
        OneMoreInsn(package, fn, b.insns, i, d.next);
        PlusPlus(d, Lowered(package, fn, b.insns[..i], None, d.next), BlockTemps(package, fn, b.insns[..i], None),
                 LowerInsn(package, fn, b.insns[i], here.next), InsnTemps(package, fn, b.insns[i]));
        i := i + 1;
      }
      assert b.insns[..i] == b.insns;
      StillLabelled(d.blocks);
      ghost var here := builder.State();
      if b.terminator.Some? {
        VisitTerminator(b.terminator.value);
      }
      InsnsThenTerm(package, fn, b.insns, b.terminator.value, d.next);
      PlusPlus(d, Lowered(package, fn, b.insns, None, d.next), BlockTemps(package, fn, b.insns, None),
               LowerTerm(fn, b.terminator.value, here.next), TermTemps(fn, b.terminator.value));
    }

    // One alloca for each local variable, and a store for each ARG-kind one.
    method AllocateLocals()
      requires builder.State() == Draft([IrBlock("entry", [])], 0, 0) && localVarRefs == map[]
      requires Tags(ArgVars(fn.localVars)) == Tags(fn.params)
      modifies this`localVarRefs, builder
      ensures Prepared()
      ensures builder.State() == Draft([IrBlock("entry", LowerLocals(fn.localVars, 0))], 0, 0)
    {
      hide LowerLocals, ArgVars;
      var paramIndex := 0;
      var i := 0;
      ghost var vars := fn.localVars;
      NoLocals(vars);
      while i < |fn.localVars|
        invariant i <= |vars| && paramIndex == |ArgVars(vars[..i])|
        invariant builder.State() == Draft([IrBlock("entry", LowerLocals(vars[..i], 0))], 0, 0)
        invariant forall x :: x in localVarRefs ==> localVarRefs[x] == LocalRef(x)
        invariant forall j :: 0 <= j < i ==> vars[j].name in localVarRefs
      {
        var locVar := fn.localVars[i];
        OneMoreLocal(vars, i, 0);
        ghost var code := LowerLocals(vars[..i], 0);
        var localVarRef := builder.CreateAlloca(locVar.name);
        if locVar.name !in localVarRefs {
          localVarRefs := localVarRefs[locVar.name := localVarRef];
        }
        if locVar.kind == ArgKind {
          builder.CreateStore(Arg(paramIndex), localVarRef);
          assert code + [Alloca(localVarRef)] + [StoreTo(Arg(paramIndex), localVarRef)]
            == code + [Alloca(localVarRef), StoreTo(Arg(paramIndex), localVarRef)];
          paramIndex := paramIndex + 1;
        }
        assert builder.blocks[0].instrs == LowerLocals(vars[..i + 1], 0);
        i := i + 1;
      }
      assert vars[..i] == vars;
      forall x | FindVar(vars, x).Some?
        ensures x in localVarRefs
      {
        var j :| 0 <= j < |vars| && vars[j] == FindVar(vars, x).value;
      }
    }

    // Every block is created before any is filled, so that branches may go forward.
    method CreateBlocks()
      requires Prepared() && basicBlocksMap == map[] && |builder.blocks| == 1
      requires forall i, j :: 0 <= i < j < |fn.blocks| ==> fn.blocks[i].id != fn.blocks[j].id
      modifies this`basicBlocksMap, builder
      ensures Labelled()
      ensures builder.blocks == old(builder.blocks) + EmptyBlocks(fn.blocks)
      ensures builder.at == old(builder.at) && builder.next == old(builder.next)
      ensures InOrder()
    {
      var i := 0;
      while i < |fn.blocks|
        invariant i <= |fn.blocks| && Prepared()
        invariant builder.blocks == old(builder.blocks) + EmptyBlocks(fn.blocks[..i])
        invariant builder.at == old(builder.at) && builder.next == old(builder.next)
        invariant forall j :: 0 <= j < i ==> PlacedAt(j)
      {
        ghost var known := basicBlocksMap;
        assert forall j :: 0 <= j < i ==> PlacedAt(j) && fn.blocks[j].id in known && known[fn.blocks[j].id] == j + 1;
        var index := builder.CreateBlock(fn.blocks[i].id);
        basicBlocksMap := basicBlocksMap[fn.blocks[i].id := index];
        assert EmptyBlocks(fn.blocks[..i + 1]) == EmptyBlocks(fn.blocks[..i]) + [IrBlock(fn.blocks[i].id, [])];
        i := i + 1;
      }
      assert fn.blocks[..i] == fn.blocks;
      forall id | HasBlock(fn, id)
        ensures BlockKnown(id)
      {
        var b := FindBlock(fn.blocks, id).value;
        var j :| 0 <= j < |fn.blocks| && fn.blocks[j] == b;
        assert PlacedAt(j) && builder.blocks[j + 1] == EmptyBlocks(fn.blocks)[j];
      }
    }

    // Each block is known, at its place after the entry block.
    ghost predicate InOrder()
      reads this
    {
      forall i :: 0 <= i < |fn.blocks| ==> PlacedAt(i)
    }

    ghost predicate PlacedAt(i: nat)
      requires i < |fn.blocks|
      reads this
    {
      fn.blocks[i].id in basicBlocksMap && basicBlocksMap[fn.blocks[i].id] == i + 1
    }

    // The entry block, complete, and the others, empty.
    method Prologue()
      requires builder.State() == Draft([], 0, 0) && localVarRefs == map[] && basicBlocksMap == map[]
      requires WfBody(package, fn)
      modifies this, builder
      ensures Labelled() && InOrder()
      ensures builder.blocks == [IrBlock("entry", LowerEntry(fn))] + EmptyBlocks(fn.blocks) && builder.next == 0
    {
      hide LowerLocals, WfBlock;
      var entry := builder.CreateBlock("entry");
      builder.SetInsertPoint(entry);
      AllocateLocals();
      CreateBlocks();
      if fn.blocks != [] {
        assert PlacedAt(0);
        assert HasBlock(fn, fn.blocks[0].id) && BlockKnown(fn.blocks[0].id);
        StillLabelled(builder.blocks);
        ghost var before := builder.blocks;
        builder.CreateBr(basicBlocksMap[fn.blocks[0].id]);
        StillLabelled(before);
        assert builder.blocks[1..] == before[1..] == EmptyBlocks(fn.blocks);
      }
    }

    method VisitBlocks()
      requires Labelled() && InOrder() && WfBody(package, fn)
      requires builder.blocks == [IrBlock("entry", LowerEntry(fn))] + EmptyBlocks(fn.blocks) && builder.next == 0
      modifies builder
      ensures builder.blocks == [IrBlock("entry", LowerEntry(fn))] + LowerBlocks(package, fn, fn.blocks, 0)
    {
      hide LowerEntry, LowerBlocks, Lowered, WfBlock, BlockTemps, Plus, Progress, EmptyBlocks, BlocksTemps, PlacedAt;
      Begun(package, fn);
      var i := 0;
      while i < |fn.blocks|
        invariant i <= |fn.blocks| && Labelled() && InOrder()
        invariant builder.blocks == Progress(package, fn, i)
        invariant builder.next == BlocksTemps(package, fn, fn.blocks[..i])
      {
        assert WfBlock(package, fn, fn.blocks[i]);
        VisitNext(i);
        i := i + 1;
      }
      Finished(package, fn);
    }

    // The i-th block, when those before it have been filled.
    method VisitNext(i: nat)
      requires Labelled() && InOrder() && WfBody(package, fn) && i < |fn.blocks|
      requires builder.blocks == Progress(package, fn, i)
      requires builder.next == BlocksTemps(package, fn, fn.blocks[..i])
      modifies builder
      ensures Labelled() && InOrder()
      ensures builder.blocks == Progress(package, fn, i + 1)
      ensures builder.next == BlocksTemps(package, fn, fn.blocks[..i + 1])
    {
      hide LowerEntry, LowerBlocks, Lowered, WfBlock, BlockTemps, Plus, Progress, EmptyBlocks, BlocksTemps;
      assert PlacedAt(i) && WfBlock(package, fn, fn.blocks[i]);
      ghost var before := builder.blocks;
      builder.SetInsertPoint(basicBlocksMap[fn.blocks[i].id]);
      StillLabelled(before);
      VisitBlock(fn.blocks[i]);
      ProgressStep(package, fn, i);
    }

    method Visit() returns (body: IrBody)
      requires builder.State() == Draft([], 0, 0) && localVarRefs == map[] && basicBlocksMap == map[]
      requires WfBody(package, fn)
      modifies this, builder
      ensures body == LowerBody(package, fn)
    {
      hide LowerEntry, LowerBlocks, EmptyBlocks, WfBody;
      Prologue();
      VisitBlocks();
      body := IrBody(builder.blocks[0].instrs, builder.blocks[1..]);
    }
  }

  // The blocks of a function when the first i have been translated.
  function Progress(p: Package, f: Function, i: nat): (r: seq<IrBlock>)
    requires i <= |f.blocks|
    ensures |r| == 1 + |f.blocks|
  {
    [IrBlock("entry", LowerEntry(f))] + LowerBlocks(p, f, f.blocks[..i], 0) + EmptyBlocks(f.blocks[i..])
  }

  lemma Begun(p: Package, f: Function)
    ensures Progress(p, f, 0) == [IrBlock("entry", LowerEntry(f))] + EmptyBlocks(f.blocks)
    ensures BlocksTemps(p, f, f.blocks[..0]) == 0
  {
    assert f.blocks[0..] == f.blocks;
    assert LowerBlocks(p, f, f.blocks[..0], 0) == [];
  }

  lemma Finished(p: Package, f: Function)
    ensures Progress(p, f, |f.blocks|) == [IrBlock("entry", LowerEntry(f))] + LowerBlocks(p, f, f.blocks, 0)
  {
    hide LowerBlocks, LowerEntry;
    assert f.blocks[..|f.blocks|] == f.blocks;
  }

  lemma ProgressStep(p: Package, f: Function, i: nat)
    requires i < |f.blocks|
    ensures var b := f.blocks[i];
      var n := BlocksTemps(p, f, f.blocks[..i]);
      Plus(Draft(Progress(p, f, i), i + 1, n), Lowered(p, f, b.insns, b.terminator, n),
           BlockTemps(p, f, b.insns, b.terminator))
      == Draft(Progress(p, f, i + 1), i + 1, BlocksTemps(p, f, f.blocks[..i + 1]))
  {
    hide LowerBlocks, LowerEntry, Lowered, BlockTemps, BlocksTemps;
    OneMoreBlock(p, f, f.blocks, i, 0);
    var b := f.blocks[i];
    var n := BlocksTemps(p, f, f.blocks[..i]);
    var code := Lowered(p, f, b.insns, b.terminator, n);
    var r := Plus(Draft(Progress(p, f, i), i + 1, n), code, BlockTemps(p, f, b.insns, b.terminator)).blocks;
    assert [] + code == code;
    assert r == Progress(p, f, i + 1);
  }

  function EmptyBlocks(blocks: seq<BasicBlock>): (r: seq<IrBlock>)
    ensures |r| == |blocks|
  {
    seq(|blocks|, i requires 0 <= i < |blocks| => IrBlock(blocks[i].id, []))
  }

  function BlocksTemps(p: Package, f: Function, blocks: seq<BasicBlock>): nat {
    if blocks == [] then 0
    else BlockTemps(p, f, blocks[0].insns, blocks[0].terminator) + BlocksTemps(p, f, blocks[1..])
  }

  // ----- Extending a translation at its end -----

  lemma {:induction false} OneMoreInsn(p: Package, f: Function, insns: seq<Insn>, i: nat, n: nat)
    requires i < |insns|
    ensures BlockTemps(p, f, insns[..i + 1], None) == BlockTemps(p, f, insns[..i], None) + InsnTemps(p, f, insns[i])
    ensures Lowered(p, f, insns[..i + 1], None, n)
      == Lowered(p, f, insns[..i], None, n) + LowerInsn(p, f, insns[i], n + BlockTemps(p, f, insns[..i], None))
    decreases i
  {
    hide LowerInsn, InsnTemps;
    if i > 0 {
      OneMoreInsn(p, f, insns[1..], i - 1, n + InsnTemps(p, f, insns[0]));
      assert insns[..i + 1][1..] == insns[1..][..i];
      assert insns[..i][1..] == insns[1..][..i - 1];
    } else {
      assert insns[..1][1..] == [];
      assert insns[..1][0] == insns[0];
    }
  }

  lemma {:induction false} InsnsThenTerm(p: Package, f: Function, insns: seq<Insn>, term: Terminator, n: nat)
    ensures BlockTemps(p, f, insns, Some(term)) == BlockTemps(p, f, insns, None) + TermTemps(f, term)
    ensures Lowered(p, f, insns, Some(term), n)
      == Lowered(p, f, insns, None, n) + LowerTerm(f, term, n + BlockTemps(p, f, insns, None))
    decreases |insns|
  {
    hide LowerInsn, InsnTemps, LowerTerm, TermTemps;
    if insns != [] {
      InsnsThenTerm(p, f, insns[1..], term, n + InsnTemps(p, f, insns[0]));
    }
  }

  lemma NoLocals(vars: seq<Variable>)
    ensures LowerLocals(vars[..0], 0) == [] && ArgVars(vars[..0]) == []
  {
  }

  lemma {:induction false} OneMoreLocal(vars: seq<Variable>, i: nat, k: nat)
    requires i < |vars|
    ensures ArgVars(vars[..i + 1]) == ArgVars(vars[..i]) + if vars[i].kind.ArgKind? then [vars[i]] else []
    ensures LowerLocals(vars[..i + 1], k) == LowerLocals(vars[..i], k) +
      var cell := LocalRef(vars[i].name);
      if vars[i].kind.ArgKind? then [Alloca(cell), StoreTo(Arg(k + |ArgVars(vars[..i])|), cell)] else [Alloca(cell)]
    decreases i
  {
    if i > 0 {
      OneMoreLocal(vars[1..], i - 1, if vars[0].kind.ArgKind? then k + 1 else k);
      assert vars[..i + 1][1..] == vars[1..][..i];
      assert vars[..i][1..] == vars[1..][..i - 1];
    } else {
      assert vars[..1][1..] == [];
      assert vars[..1][0] == vars[0];
    }
  }

  lemma {:induction false} BlocksInTwo(p: Package, f: Function, a: seq<BasicBlock>, b: seq<BasicBlock>, n: nat)
    ensures BlocksTemps(p, f, a + b) == BlocksTemps(p, f, a) + BlocksTemps(p, f, b)
    ensures LowerBlocks(p, f, a + b, n)
      == LowerBlocks(p, f, a, n) + LowerBlocks(p, f, b, n + BlocksTemps(p, f, a))
    decreases |a|
  {
    hide Lowered, BlockTemps;
    if a == [] {
      assert a + b == b;
    } else {
      assert (a + b)[1..] == a[1..] + b;
      BlocksInTwo(p, f, a[1..], b, n + BlockTemps(p, f, a[0].insns, a[0].terminator));
    }
  }

  lemma OneMoreBlock(p: Package, f: Function, blocks: seq<BasicBlock>, i: nat, n: nat)
    requires i < |blocks|
    ensures var b := blocks[i];
      && BlocksTemps(p, f, blocks[..i + 1])
          == BlocksTemps(p, f, blocks[..i]) + BlockTemps(p, f, b.insns, b.terminator)
      && LowerBlocks(p, f, blocks[..i + 1], n)
          == LowerBlocks(p, f, blocks[..i], n)
            + [IrBlock(b.id, Lowered(p, f, b.insns, b.terminator, n + BlocksTemps(p, f, blocks[..i])))]
  {
    hide Lowered, BlockTemps;
    var one := [blocks[i]];
    assert one[1..] == [];
    assert blocks[..i + 1] == blocks[..i] + one;
    BlocksInTwo(p, f, blocks[..i], one, n);
  }

  lemma NoFields(lhs: Operand, fields: seq<MapField>, n: nat)
    ensures LowerFields(lhs, fields[..0], n) == [] && FieldsTemps(fields[..0]) == 0
  {
  }

  lemma {:induction false} OneMoreField(lhs: Operand, fields: seq<MapField>, i: nat, n: nat)
    requires i < |fields|
    ensures FieldsTemps(fields[..i + 1]) == FieldsTemps(fields[..i]) + FieldTemps(fields[i])
    ensures LowerFields(lhs, fields[..i + 1], n)
      == LowerFields(lhs, fields[..i], n) + LowerField(lhs, fields[i], n + FieldsTemps(fields[..i]))
    decreases i
  {
    if i > 0 {
      OneMoreField(lhs, fields[1..], i - 1, n + FieldTemps(fields[0]));
      assert fields[..i + 1][1..] == fields[1..][..i];
      assert fields[..i][1..] == fields[1..][..i - 1];
    } else {
      assert fields[..1][1..] == [];
      assert fields[..1][0] == fields[0];
    }
  }

  // ----- Packages -----

  // The translation of a package: globals, then declarations of every function,
  // then the bodies of those that are not external.
  class PackageCodeGen {
    var globals: seq<IrGlobal>
    var functions: seq<IrFunction>

    constructor ()
      ensures globals == [] && functions == []
    {
      globals, functions := [], [];
    }

    method Visit(p: Package)
      requires WfPackage(p) && globals == [] && functions == []
      modifies this
      ensures Module(globals, functions) == LowerPackage(p)
    {
      hide LowerBody, WfBody, WfExternal;
      var i := 0;
      while i < |p.globals|
        invariant i <= |p.globals| && globals == LowerGlobals(p.globals[..i]) && functions == []
      {
        globals := globals + [IrGlobal(p.globals[i].name, NullOf(p.globals[i].tag))];
        i := i + 1;
      }
      assert p.globals[..i] == p.globals;
      i := 0;
      while i < |p.functions|
        invariant i <= |p.functions| && globals == LowerGlobals(p.globals) && |functions| == i
        invariant forall j :: 0 <= j < i ==> functions[j] == IrFunction(p.functions[j].name, None)
      {
        functions := functions + [IrFunction(p.functions[i].name, None)];
        i := i + 1;
      }
      i := 0;
      while i < |p.functions|
        invariant i <= |p.functions| == |functions| && globals == LowerGlobals(p.globals)
        invariant forall j :: 0 <= j < i ==> functions[j] == LowerFunction(p, p.functions[j])
        invariant forall j :: i <= j < |functions| ==> functions[j] == IrFunction(p.functions[j].name, None)
      {
        assert WfFunction(p, p.functions[i]);
        if !p.functions[i].isExternal {
          var generator := new FunctionCodeGen(p, p.functions[i]);
          var body := generator.Visit();
          functions := functions[i := functions[i].(body := Some(body))];
        }
        i := i + 1;
      }
      assert functions == LowerFunctions(p, p.functions);
    }
  }
}

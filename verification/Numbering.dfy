// The temporaries and out cells of a function: numbered in order, each assigned
// once, and each assigned before its use in the same block.
module Numbering {
  import opened Options
  import opened Ir
  import opened Bir
  import opened Lowering

  // ----- Numbers -----

  function TmpOf(i: Instr): Option<nat> {
    match i
    case Load(dst, _) => Some(dst)
    case Op(dst, _, _, _) => Some(dst)
    case FPToSI(dst, _) => Some(dst)
    case BitCast(dst, _) => Some(dst)
    case CallFn(dst, _, _) => Some(dst)
    case CallRt(dst, _, _) => Some(dst)
    case CallLookup(dst, _, _, _) => Some(dst)
    case _ => None
  }

  // The number an instruction takes, for a temporary or for an out cell.
  function NumberOf(i: Instr): Option<nat> {
    match i
    case Alloca(OutRef(n)) => Some(n)
    case _ => TmpOf(i)
  }

  predicate UsesTmp(i: Instr, k: nat) {
    match i
    case StoreTo(v, _) => v == Tmp(k)
    case Op(_, _, a, b) => a == Tmp(k) || b == Tmp(k)
    case FPToSI(_, a) => a == Tmp(k)
    case CallFn(_, _, args) => Tmp(k) in args
    case CallRt(_, _, args) => Tmp(k) in args
    case CallLookup(_, table, key, _) => table == Tmp(k) || key == Tmp(k)
    case CondBr(c, _, _) => c == Tmp(k)
    case Ret(v) => v == Tmp(k)
    case _ => false
  }

  predicate UsesOut(i: Instr, k: nat) {
    match i
    case Load(_, r) => r == OutRef(k)
    case StoreTo(_, r) => r == OutRef(k)
    case BitCast(_, r) => r == OutRef(k)
    case CallLookup(_, _, _, out) => out == OutRef(k)
    case _ => false
  }

  predicate Before(x: Option<nat>, y: Option<nat>) {
    x.Some? && y.Some? ==> x.value < y.value
  }

  ghost predicate Increasing(code: seq<Instr>, lo: nat, end: nat) {
    && lo <= end
    && (forall j :: 0 <= j < |code| && NumberOf(code[j]).Some? ==> lo <= NumberOf(code[j]).value < end)
    && (forall i, j :: 0 <= i < j < |code| ==> Before(NumberOf(code[i]), NumberOf(code[j])))
  }

  predicate TmpAssigned(code: seq<Instr>, k: nat) {
    exists i :: 0 <= i < |code| && TmpOf(code[i]) == Some(k)
  }

  predicate OutAssigned(code: seq<Instr>, k: nat) {
    Alloca(OutRef(k)) in code
  }

  // What instruction j uses is assigned before it.
  ghost predicate Ready(code: seq<Instr>, j: nat)
    requires j < |code|
  {
    && (forall k: nat :: UsesTmp(code[j], k) ==> TmpAssigned(code[..j], k))
    && (forall k: nat :: UsesOut(code[j], k) ==> OutAssigned(code[..j], k))
  }

  ghost predicate AssignedBeforeUse(code: seq<Instr>) {
    forall j :: 0 <= j < |code| ==> Ready(code, j)
  }

  // Numbers from lo below end, in increasing order, and nothing used before it is
  // assigned.
  ghost predicate Numbered(code: seq<Instr>, lo: nat, end: nat) {
    Increasing(code, lo, end) && AssignedBeforeUse(code)
  }

  // ----- Concatenation -----

  lemma ReadyLater(a: seq<Instr>, b: seq<Instr>, j: nat)
    requires j < |b| && Ready(b, j)
    ensures Ready(a + b, |a| + j)
  {
    var all := a + b;
    assert all[..|a| + j] == a + b[..j] && all[|a| + j] == b[j];
    forall k: nat | UsesTmp(b[j], k)
      ensures TmpAssigned(a + b[..j], k)
    {
      assert TmpAssigned(b[..j], k);
      var i :| 0 <= i < j && TmpOf(b[..j][i]) == Some(k);
      assert (a + b[..j])[|a| + i] == b[..j][i];
    }
    forall k: nat | UsesOut(b[j], k)
      ensures OutAssigned(a + b[..j], k)
    {
      assert OutAssigned(b[..j], k);
    }
  }

  lemma InOrder(a: seq<Instr>, b: seq<Instr>, lo: nat, mid: nat, end: nat)
    requires Increasing(a, lo, mid) && Increasing(b, mid, end)
    ensures Increasing(a + b, lo, end)
  {
    var all := a + b;
    forall i, j | 0 <= i < j < |all|
      ensures Before(NumberOf(all[i]), NumberOf(all[j]))
    {
      assert i >= |a| ==> all[i] == b[i - |a|];
      assert j >= |a| ==> all[j] == b[j - |a|];
    }
  }

  lemma NumberedTogether(a: seq<Instr>, b: seq<Instr>, lo: nat, mid: nat, end: nat)
    requires Numbered(a, lo, mid) && Numbered(b, mid, end)
    ensures Numbered(a + b, lo, end)
  {
    hide Increasing, Ready;
    var all := a + b;
    InOrder(a, b, lo, mid, end);
    forall j | 0 <= j < |all|
      ensures Ready(all, j)
    {
      if j < |a| {
        ReadyFront(a, b, j);
      } else {
        ReadyLater(a, b, j - |a|);
      }
    }
  }

  lemma ReadyFront(a: seq<Instr>, b: seq<Instr>, j: nat)
    requires j < |a| && Ready(a, j)
    ensures Ready(a + b, j)
  {
    assert (a + b)[..j] == a[..j];
  }

  // An instruction more, with the next number.
  lemma OneMore(a: seq<Instr>, i: Instr, lo: nat, mid: nat, end: nat)
    requires Numbered(a, lo, mid) && mid <= end
    requires NumberOf(i).Some? ==> mid <= NumberOf(i).value < end
    requires forall k: nat :: UsesTmp(i, k) ==> TmpAssigned(a, k)
    requires forall k: nat :: UsesOut(i, k) ==> OutAssigned(a, k)
    ensures Numbered(a + [i], lo, end)
  {
    hide Ready;
    InOrder(a, [i], lo, mid, end);
    var all := a + [i];
    forall j | 0 <= j < |all|
      ensures Ready(all, j)
    {
      if j < |a| {
        ReadyFront(a, [i], j);
      } else {
        LastIsReady(a, i);
      }
    }
  }

  lemma LastIsReady(a: seq<Instr>, i: Instr)
    requires forall k: nat :: UsesTmp(i, k) ==> TmpAssigned(a, k)
    requires forall k: nat :: UsesOut(i, k) ==> OutAssigned(a, k)
    ensures Ready(a + [i], |a|)
  {
    assert (a + [i])[..|a|] == a;
  }

  // ----- Instructions -----

  predicate TmpAt(code: seq<Instr>, i: nat, j: nat, k: nat)
    requires j <= |code|
  {
    i < j && TmpOf(code[i]) == Some(k)
  }

  // Instruction j is ready: no short code uses a temporary of an instruction beyond
  // the sixth, nor an out cell other than that of the first.
  predicate ShortReady(code: seq<Instr>, j: nat, k: nat)
    requires j < |code|
  {
    && (UsesTmp(code[j], k) ==>
          || TmpAt(code, 0, j, k) || TmpAt(code, 1, j, k) || TmpAt(code, 2, j, k)
          || TmpAt(code, 3, j, k) || TmpAt(code, 4, j, k) || TmpAt(code, 5, j, k))
    && (UsesOut(code[j], k) ==> j > 0 && code[0] == Alloca(OutRef(k)))
  }

  lemma Short(code: seq<Instr>, lo: nat, end: nat)
    requires Increasing(code, lo, end)
    requires forall j, k: nat :: 0 <= j < |code| ==> ShortReady(code, j, k)
    ensures Numbered(code, lo, end)
  {
    forall j | 0 <= j < |code|
      ensures Ready(code, j)
    {
      forall k: nat | UsesTmp(code[j], k)
        ensures TmpAssigned(code[..j], k)
      {
        assert ShortReady(code, j, k);
        var i :| 0 <= i < j && TmpOf(code[i]) == Some(k);
        assert code[..j][i] == code[i];
      }
      forall k: nat | UsesOut(code[j], k)
        ensures OutAssigned(code[..j], k)
      {
        assert ShortReady(code, j, k);
        assert code[..j][0] == code[0];
      }
    }
  }

  lemma EntryIsNumbered(lhs: Operand, key: Operand, value: Operand, n: nat)
    ensures Numbered(LowerStore(lhs, key, value, n), n, n + 4)
  {
    Short(LowerStore(lhs, key, value, n), n, n + 4);
  }

  lemma SpreadIsNumbered(lhs: Operand, expr: Operand, n: nat)
    ensures Numbered(LowerField(lhs, SpreadField(expr), n), n, n + 3)
  {
    Short(LowerField(lhs, SpreadField(expr), n), n, n + 3);
  }

  lemma FieldIsNumbered(lhs: Operand, field: MapField, n: nat)
    ensures Numbered(LowerField(lhs, field, n), n, n + FieldTemps(field))
  {
    hide Numbered, LowerStore;
    match field
    case SpreadField(expr) => SpreadIsNumbered(lhs, expr, n);
    case KeyValue(key, value) => EntryIsNumbered(lhs, key, value, n);
  }

  lemma {:induction false} FieldsAreNumbered(lhs: Operand, fields: seq<MapField>, n: nat)
    ensures Numbered(LowerFields(lhs, fields, n), n, n + FieldsTemps(fields))
    decreases |fields|
  {
    hide Numbered, LowerField, FieldTemps;
    if fields == [] {
      Short([], n, n);
    } else {
      var n' := n + FieldTemps(fields[0]);
      FieldIsNumbered(lhs, fields[0], n);
      FieldsAreNumbered(lhs, fields[1..], n');
      NumberedTogether(LowerField(lhs, fields[0], n), LowerFields(lhs, fields[1..], n'), n, n',
                       n + FieldsTemps(fields));
    }
  }

  // One temporary, loaded and then stored or returned.
  lemma PairIsNumbered(r: Ref, last: Instr, n: nat)
    requires !r.OutRef? && NumberOf(last).None?
    requires forall k: nat :: (UsesTmp(last, k) ==> k == n) && !UsesOut(last, k)
    ensures Numbered([Load(n, r), last], n, n + 1)
  {
    Short([Load(n, r), last], n, n + 1);
  }

  // An operand loaded, an instruction on it, and one on the result.
  lemma TripleIsNumbered(r: Ref, i: Instr, last: Instr, n: nat)
    requires !r.OutRef? && NumberOf(i) == TmpOf(i) == Some(n + 1) && NumberOf(last).None?
    requires forall k: nat :: (UsesTmp(i, k) ==> k == n) && !UsesOut(i, k)
    requires forall k: nat :: (UsesTmp(last, k) ==> k == n + 1) && !UsesOut(last, k)
    ensures Numbered([Load(n, r), i, last], n, n + 2)
  {
    hide NumberOf, TmpOf, UsesTmp, UsesOut, Numbered;
    PairUnfinished(r, i, n);
    var code := [Load(n, r), i];
    assert TmpAssigned(code, n + 1) by {
      assert TmpOf(code[1]) == Some(n + 1);
    }
    OneMore(code, last, n, n + 2, n + 2);
    assert code + [last] == [Load(n, r), i, last];
  }

  lemma PairUnfinished(r: Ref, i: Instr, n: nat)
    requires !r.OutRef? && NumberOf(i) == TmpOf(i) == Some(n + 1)
    requires forall k: nat :: (UsesTmp(i, k) ==> k == n) && !UsesOut(i, k)
    ensures Numbered([Load(n, r), i], n, n + 2)
  {
    Short([Load(n, r), i], n, n + 2);
  }

  lemma ConvertIsNumbered(lhs: Operand, rhs: Operand, fn: Runtime, n: nat)
    ensures Numbered(Convert(lhs, rhs, fn, n), n, n + 2)
  {
    hide Numbered;
    TripleIsNumbered(RefOf(rhs), CallRt(n + 1, fn, [Tmp(n)]), StoreTo(Tmp(n + 1), RefOf(lhs)), n);
  }

  lemma FloatCastIsNumbered(lhs: Operand, rhs: Operand, n: nat)
    ensures Numbered([LoadOf(n, rhs), LoadOf(n + 1, lhs), FPToSI(n + 2, Tmp(n)), StoreTo(Tmp(n + 2), RefOf(lhs))],
                     n, n + 3)
  {
    Short([LoadOf(n, rhs), LoadOf(n + 1, lhs), FPToSI(n + 2, Tmp(n)), StoreTo(Tmp(n + 2), RefOf(lhs))], n, n + 3);
  }

  lemma CastIsNumbered(lhs: Operand, rhs: Operand, lhsTag: TypeTag, rhsTag: TypeTag, n: nat)
    ensures Numbered(LowerCast(lhs, rhs, lhsTag, rhsTag, n), n, n + CastTemps(rhs, lhsTag, rhsTag))
  {
    hide Numbered, Convert, TypeOf;
    if IsBalValue(rhsTag) {
      if IsBalValue(lhsTag) {
        PairIsNumbered(RefOf(rhs), StoreTo(Tmp(n), RefOf(lhs)), n);
      } else {
        ConvertIsNumbered(lhs, rhs, if lhsTag.BooleanTag? then AnyToBoolFn else AnyToIntFn, n);
      }
    } else if IsBalValue(lhsTag) && (rhsTag.BooleanTag? || rhsTag.IntTag?) {
      ConvertIsNumbered(lhs, rhs, if rhsTag.BooleanTag? then BoolToAnyFn else IntToAnyFn, n);
    } else if lhsTag.IntTag? && rhsTag.FloatTag? {
      FloatCastIsNumbered(lhs, rhs, n);
    } else {
      var a := LowerPointerCast(rhs, lhsTag, rhsTag, n);
      Short(a, n, n + |a|);
    }
  }

  lemma BinaryIsNumbered(lhs: Operand, rhs1: Operand, rhs2: Operand, op: IrOp, n: nat)
    ensures Numbered([LoadOf(n, rhs1), LoadOf(n + 1, rhs2), Op(n + 2, op, Tmp(n), Tmp(n + 1)),
                      StoreTo(Tmp(n + 2), RefOf(lhs))], n, n + 3)
  {
    Short([LoadOf(n, rhs1), LoadOf(n + 1, rhs2), Op(n + 2, op, Tmp(n), Tmp(n + 1)), StoreTo(Tmp(n + 2), RefOf(lhs))],
          n, n + 3);
  }

  lemma UnaryIsNumbered(op: UnaryKind, lhs: Operand, rhs: Operand, n: nat)
    ensures Numbered(LowerUnary(op, lhs, rhs, n), n, n + 2)
  {
    hide Numbered;
    var i := if op.Not? then Op(n + 1, XorOp, Tmp(n), Lit(I1(true))) else Op(n + 1, SubOp, Lit(I64(0)), Tmp(n));
    TripleIsNumbered(RefOf(rhs), i, StoreTo(Tmp(n + 1), RefOf(lhs)), n);
  }

  lemma ConstIsNumbered(f: Function, lhs: Operand, value: Constant, n: nat)
    ensures Numbered(LowerConst(f, lhs, value, n), n,
                     n + if value.NilConst? && !NamesMainResult(f, lhs) then 1 else 0)
  {
    hide NamesMainResult, Numbered;
    if value.NilConst? && !NamesMainResult(f, lhs) {
      PairIsNumbered(NilRef, StoreTo(Tmp(n), RefOf(lhs)), n);
    } else {
      Short(LowerConst(f, lhs, value, n), n, n);
    }
  }

  lemma MapLoadIsNumbered(lhs: Operand, key: Operand, rhs: Operand, n: nat)
    ensures Numbered(LowerMapLoad(lhs, key, rhs, n), n, n + 6)
  {
    Short(LowerMapLoad(lhs, key, rhs, n), n, n + 6);
  }

  lemma InsnIsNumbered(p: Package, f: Function, i: Insn, n: nat)
    ensures Numbered(LowerInsn(p, f, i, n), n, n + InsnTemps(p, f, i))
  {
    hide Numbered, StaticTag, BinaryOpOf, LowerCast, CastTemps, NamesMainResult, LowerMapLoad, LowerConst, LowerUnary,
      LowerField, LowerFields, FieldsTemps;
    match i
    case Move(lhs, rhs) => PairIsNumbered(RefOf(rhs), StoreTo(Tmp(n), RefOf(lhs)), n);
    case Binary(kind, lhs, rhs1, rhs2) =>
      BinaryIsNumbered(lhs, rhs1, rhs2, BinaryOpOf(kind, StaticTag(p, f, rhs1)), n);
    case Unary(op, lhs, rhs) => UnaryIsNumbered(op, lhs, rhs, n);
    case ConstLoad(lhs, value) => ConstIsNumbered(f, lhs, value, n);
    case TypeCast(lhs, rhs) => CastIsNumbered(lhs, rhs, StaticTag(p, f, lhs), StaticTag(p, f, rhs), n);
    case NewMap(lhs, fields) => ConstructorIsNumbered(lhs, fields, n);
    case MapStore(lhs, key, rhs) => EntryIsNumbered(lhs, key, rhs, n);
    case MapLoad(lhs, key, rhs) => MapLoadIsNumbered(lhs, key, rhs, n);
    case FieldInit(lhs, field) => FieldIsNumbered(lhs, field, n);
  }

  lemma ConstructorIsNumbered(lhs: Operand, fields: seq<MapField>, n: nat)
    ensures Numbered([CallRt(n, MapCreateFn, []), StoreTo(Tmp(n), RefOf(lhs))] + LowerFields(lhs, fields, n + 1), n,
                     n + 1 + FieldsTemps(fields))
  {
    hide Numbered, LowerFields, FieldsTemps;
    var create := [CallRt(n, MapCreateFn, []), StoreTo(Tmp(n), RefOf(lhs))];
    Short(create, n, n + 1);
    FieldsAreNumbered(lhs, fields, n + 1);
    NumberedTogether(create, LowerFields(lhs, fields, n + 1), n, n + 1, n + 1 + FieldsTemps(fields));
  }

  // ----- Terminators and blocks -----

  lemma LoadsAreNumbered(args: seq<Operand>, n: nat)
    ensures Numbered(LoadsOf(n, args), n, n + |args|)
    ensures forall k: nat :: Tmp(k) in TmpsFrom(n, |args|) ==> TmpAssigned(LoadsOf(n, args), k)
  {
    var loads := LoadsOf(n, args);
    Short(loads, n, n + |args|);
    forall k: nat | Tmp(k) in TmpsFrom(n, |args|)
      ensures TmpAssigned(loads, k)
    {
      var i :| 0 <= i < |args| && TmpsFrom(n, |args|)[i] == Tmp(k);
      assert TmpOf(loads[i]) == Some(k);
    }
  }

  lemma CallIsNumbered(callee: string, args: seq<Operand>, lhs: Operand, next: string, f: Function, n: nat)
    ensures Numbered(LowerTerm(f, Call(callee, args, lhs, next), n), n, n + |args| + 1)
  {
    hide Numbered;
    var end := n + |args| + 1;
    var loads := LoadsOf(n, args);
    var call, store := CallFn(n + |args|, callee, TmpsFrom(n, |args|)), StoreTo(Tmp(n + |args|), RefOf(lhs));
    LoadsAreNumbered(args, n);
    OneMore(loads, call, n, n + |args|, end);
    assert TmpAssigned(loads + [call], n + |args|) by {
      assert TmpOf((loads + [call])[|loads|]) == Some(n + |args|);
    }
    OneMore(loads + [call], store, n, end, end);
    OneMore(loads + [call] + [store], Br(next), n, end, end);
    assert loads + [call] + [store] + [Br(next)] == LowerTerm(f, Call(callee, args, lhs, next), n);
  }

  lemma TermIsNumbered(f: Function, term: Terminator, n: nat)
    ensures Numbered(LowerTerm(f, term, n), n, n + TermTemps(f, term))
  {
    hide Numbered;
    match term
    case Call(callee, args, lhs, next) => CallIsNumbered(callee, args, lhs, next, f, n);
    case CondBranch(cond, onTrue, onFalse) =>
      TripleIsNumbered(RefOf(cond), Op(n + 1, CmpOp(NE), Tmp(n), Lit(I1(false))), CondBr(Tmp(n + 1), onTrue, onFalse),
                       n);
    case Goto(next) => Short([Br(next)], n, n);
    case Return =>
      if IsMain(f) {
        Short([RetVoid], n, n);
      } else if f.returnVar.Some? {
        PairIsNumbered(LocalRef(f.returnVar.value.name), Ret(Tmp(n)), n);
      } else {
        Short([], n, n);
      }
  }

  lemma {:induction false} BlockIsNumbered(p: Package, f: Function, insns: seq<Insn>, term: Option<Terminator>, n: nat)
    ensures Numbered(Lowered(p, f, insns, term, n), n, n + BlockTemps(p, f, insns, term))
    decreases |insns|
  {
    hide Numbered, LowerInsn, InsnTemps, LowerTerm, TermTemps;
    if insns == [] {
      if term.Some? {
        TermIsNumbered(f, term.value, n);
      } else {
        Short([], n, n);
      }
    } else {
      var mid, end := n + InsnTemps(p, f, insns[0]), n + BlockTemps(p, f, insns, term);
      InsnIsNumbered(p, f, insns[0], n);
      BlockIsNumbered(p, f, insns[1..], term, mid);
      NumberedTogether(LowerInsn(p, f, insns[0], n), Lowered(p, f, insns[1..], term, mid), n, mid, end);
    }
  }

  // The first number of block i.
  function FirstNumber(p: Package, f: Function, blocks: seq<BasicBlock>, i: nat): nat
    requires i <= |blocks|
  {
    if i == 0 then 0
    else BlockTemps(p, f, blocks[0].insns, blocks[0].terminator) + FirstNumber(p, f, blocks[1..], i - 1)
  }

  lemma FirstNumberAfter(p: Package, f: Function, blocks: seq<BasicBlock>, i: nat)
    requires i < |blocks|
    ensures FirstNumber(p, f, blocks, i + 1)
      == BlockTemps(p, f, blocks[0].insns, blocks[0].terminator) + FirstNumber(p, f, blocks[1..], i)
  {
    hide BlockTemps;
  }

  lemma BlockAt(p: Package, f: Function, blocks: seq<BasicBlock>, n: nat, i: nat)
    requires i < |blocks|
    ensures var b := blocks[0];
      LowerBlocks(p, f, blocks, n)[i] ==
        if i == 0 then IrBlock(b.id, Lowered(p, f, b.insns, b.terminator, n))
        else LowerBlocks(p, f, blocks[1..], n + BlockTemps(p, f, b.insns, b.terminator))[i - 1]
  {
    hide Lowered, BlockTemps;
  }

  lemma {:induction false} BlocksAreNumbered(p: Package, f: Function, blocks: seq<BasicBlock>, n: nat, i: nat)
    requires i < |blocks|
    ensures Numbered(LowerBlocks(p, f, blocks, n)[i].instrs,
                     n + FirstNumber(p, f, blocks, i), n + FirstNumber(p, f, blocks, i + 1))
    decreases i
  {
    hide Numbered, Lowered, BlockTemps, FirstNumber, LowerBlocks;
    BlockAt(p, f, blocks, n, i);
    var b := blocks[0];
    var n' := n + BlockTemps(p, f, b.insns, b.terminator);
    FirstNumberAfter(p, f, blocks, i);
    if i == 0 {
      NoneBefore(p, f, blocks);
      NoneBefore(p, f, blocks[1..]);
      BlockIsNumbered(p, f, b.insns, b.terminator, n);
    } else {
      FirstNumberAfter(p, f, blocks, i - 1);
      BlocksAreNumbered(p, f, blocks[1..], n', i - 1);
    }
  }

  lemma NoneBefore(p: Package, f: Function, blocks: seq<BasicBlock>)
    ensures FirstNumber(p, f, blocks, 0) == 0
  {
  }

  lemma {:induction false} FirstNumberGrows(p: Package, f: Function, blocks: seq<BasicBlock>, i: nat, j: nat)
    requires i <= j <= |blocks|
    ensures FirstNumber(p, f, blocks, i) <= FirstNumber(p, f, blocks, j)
    decreases i
  {
    hide BlockTemps;
    if i > 0 {
      FirstNumberGrows(p, f, blocks[1..], i - 1, j - 1);
    }
  }

  lemma {:induction false} EntryHasNoNumbers(vars: seq<Variable>, k: nat)
    ensures forall j :: 0 <= j < |LowerLocals(vars, k)| ==> NumberOf(LowerLocals(vars, k)[j]).None?
    ensures forall j, i: nat :: 0 <= j < |LowerLocals(vars, k)| ==>
      !UsesTmp(LowerLocals(vars, k)[j], i) && !UsesOut(LowerLocals(vars, k)[j], i)
    decreases |vars|
  {
    if vars != [] {
      EntryHasNoNumbers(vars[1..], if vars[0].kind.ArgKind? then k + 1 else k);
    }
  }

  // Two instructions of a function that take the same number are the same one.
  ghost predicate AssignedOnce(blocks: seq<IrBlock>) {
    forall i, j, x, y | 0 <= i < |blocks| && 0 <= j < |blocks|
                        && 0 <= x < |blocks[i].instrs| && 0 <= y < |blocks[j].instrs| ::
      SameNumber(blocks[i].instrs[x], blocks[j].instrs[y]) ==> i == j && x == y
  }

  predicate SameNumber(a: Instr, b: Instr) {
    NumberOf(a).Some? && NumberOf(a) == NumberOf(b)
  }

  // In the code of any function every temporary and every out cell is assigned by
  // one instruction only, and used only after it in its block; the entry block,
  // which comes before, has none.
  lemma TemporariesAssignedOnce(p: Package, f: Function)
    ensures var body := LowerBody(p, f);
      && AssignedOnce(body.blocks)
      && (forall i :: 0 <= i < |body.blocks| ==> AssignedBeforeUse(body.blocks[i].instrs))
      && AssignedBeforeUse(body.entry)
      && (forall j :: 0 <= j < |body.entry| ==> NumberOf(body.entry[j]).None?)
  {
    hide FirstNumber, LowerBlocks, Ready, LowerLocals;
    var blocks := LowerBody(p, f).blocks;
    forall i | 0 <= i < |blocks|
      ensures Numbered(blocks[i].instrs, FirstNumber(p, f, f.blocks, i), FirstNumber(p, f, f.blocks, i + 1))
    {
      BlocksAreNumbered(p, f, f.blocks, 0, i);
    }
    forall i, j, x, y | 0 <= i < |blocks| && 0 <= j < |blocks| && 0 <= x < |blocks[i].instrs|
      && 0 <= y < |blocks[j].instrs| && SameNumber(blocks[i].instrs[x], blocks[j].instrs[y])
      ensures i == j && x == y
    {
      OnlyOne(p, f, blocks, i, j, x, y);
    }
    assert AssignedOnce(blocks);
    forall i | 0 <= i < |blocks|
      ensures AssignedBeforeUse(blocks[i].instrs)
    {
      assert Numbered(blocks[i].instrs, FirstNumber(p, f, f.blocks, i), FirstNumber(p, f, f.blocks, i + 1));
    }
    EntryIsReady(f);
  }

  lemma OnlyOne(p: Package, f: Function, blocks: seq<IrBlock>, i: nat, j: nat, x: nat, y: nat)
    requires |blocks| == |f.blocks| && i < |blocks| && j < |blocks|
    requires Numbered(blocks[i].instrs, FirstNumber(p, f, f.blocks, i), FirstNumber(p, f, f.blocks, i + 1))
    requires Numbered(blocks[j].instrs, FirstNumber(p, f, f.blocks, j), FirstNumber(p, f, f.blocks, j + 1))
    requires x < |blocks[i].instrs| && y < |blocks[j].instrs| && SameNumber(blocks[i].instrs[x], blocks[j].instrs[y])
    ensures i == j && x == y
  {
    hide FirstNumber, Ready;
    if i < j {
      FirstNumberGrows(p, f, f.blocks, i + 1, j);
    } else if j < i {
      FirstNumberGrows(p, f, f.blocks, j + 1, i);
    } else {
      var code := blocks[i].instrs;
      assert NumberOf(code[x]) == NumberOf(code[y]);
    }
  }

  lemma EntryIsReady(f: Function)
    ensures AssignedBeforeUse(LowerEntry(f))
    ensures forall j :: 0 <= j < |LowerEntry(f)| ==> NumberOf(LowerEntry(f)[j]).None?
  {
    hide LowerLocals;
    EntryHasNoNumbers(f.localVars, 0);
  }
}

// Casts: the emitted conversions agree with the values the words stand for.
module CastSimulation {
  import opened Options
  import opened TaggedValues
  import opened Ir
  import opened Bir
  import opened Lowering
  import opened Matching
  import opened Simulation

  // The emitted any_to_bool gives false where the language panics: for an integer.
  predicate CastAgrees(lhsTag: TypeTag, v: Val) {
    !(lhsTag.BooleanTag? && v.IntV?)
  }

  // What an emitted conversion leaves, for a word that stands for x.
  lemma UnwrapFaithful(env: IrEnv, im: IrStore, fn: Runtime, lhsTag: TypeTag, x: Val, iv: IrVal)
    requires AnyMatch(x, iv, im.heap)
    requires (fn == AnyToIntFn && lhsTag == IntTag) || (fn == AnyToBoolFn && lhsTag == BooleanTag)
    ensures var r := CallConversion(env, im, fn, iv);
      match CastValue(env.bir.arith, lhsTag, x)
      case Value(v) => r == RtReturns(ToIr(v), im) && HasTag(v, lhsTag)
      case Panic => if CastAgrees(lhsTag, x) then r == RtAborts else r == RtReturns(I1(false), im)
      case Wrong => false
  {
    DecodersAgree(im.heap, iv.w, ToTagged(x));
  }

  // Unwrapping is faithful exactly when CastAgrees.
  lemma UnwrapFaithfulIff(env: IrEnv, im: IrStore, fn: Runtime, lhsTag: TypeTag, x: Val, iv: IrVal)
    requires AnyMatch(x, iv, im.heap)
    requires (fn == AnyToIntFn && lhsTag == IntTag) || (fn == AnyToBoolFn && lhsTag == BooleanTag)
    ensures var r := CallConversion(env, im, fn, iv);
      CastAgrees(lhsTag, x) <==>
        match CastValue(env.bir.arith, lhsTag, x)
        case Value(v) => r == RtReturns(ToIr(v), im)
        case Panic => r.RtAborts?
        case Wrong => false
  {
    UnwrapFaithful(env, im, fn, lhsTag, x, iv);
  }

  // Wrapping never changes an existing box; an integer may need a new one.
  lemma WrapFaithful(env: IrEnv, im: IrStore, fn: Runtime, x: Val)
    requires (fn == IntToAnyFn && x.IntV?) || (fn == BoolToAnyFn && x.BoolV?)
    ensures var r := CallConversion(env, im, fn, ToIr(x));
      match r
      case RtReturns(iv, im') =>
        Extends(im.heap, im'.heap) && im' == im.(heap := im'.heap) && AnyMatch(x, iv, im'.heap)
      case RtExhausts => true
      case _ => false
  {
    if x.IntV? {
      IntToAnyEncodes(x.n, im.heap, env.malloc(im.heap));
    }
  }

  predicate Converts(fn: Runtime, lhsTag: TypeTag, rhsTag: TypeTag) {
    match fn
    case AnyToIntFn => IsBalValue(rhsTag) && lhsTag == IntTag
    case AnyToBoolFn => IsBalValue(rhsTag) && lhsTag == BooleanTag
    case IntToAnyFn => IsBalValue(lhsTag) && rhsTag == IntTag
    case BoolToAnyFn => IsBalValue(lhsTag) && rhsTag == BooleanTag
    case _ => false
  }

  // The three instructions of a cast that calls a conversion function.
  lemma ConversionCode(c: Setting, m: Store, lhs: Operand, rhs: Operand, fn: Runtime, lhsTag: TypeTag, rhsTag: TypeTag,
                       rest: seq<Insn>, term: Terminator, code: seq<Instr>, pc: nat, im: IrStore, n: nat)
    requires Poised(c, m, TypeCast(lhs, rhs), rest, term, code, pc, im, n)
    requires TagOf(c.p, m.frame.fn, lhs) == Some(lhsTag) && TagOf(c.p, m.frame.fn, rhs) == Some(rhsTag)
    requires Converts(fn, lhsTag, rhsTag)
    ensures c.After(0) == IrRunning(code, pc, im) && StoreMatch(c.p, m, im) && WfRest(c.p, m.frame.fn, rest, term)
    ensures Readable(c.p, m.frame.fn, rhs, rhsTag) && Writable(c.p, m.frame.fn, lhs, lhsTag)
    ensures pc + 3 <= |code|
    ensures code[pc] == LoadOf(n, rhs) && code[pc + 1] == CallRt(n + 1, fn, [Tmp(n)])
    ensures code[pc + 2] == StoreTo(Tmp(n + 1), RefOf(lhs))
    ensures code[pc + 3..] == Lowered(c.p, m.frame.fn, rest, Some(term), n + 2)
  {
    hide IrRun, StoreMatch, Lowered, WfRest, IsMainResult, RefOf, LowerPackage;
    Window(code, pc, LowerInsn(c.p, m.frame.fn, TypeCast(lhs, rhs), n));
  }

  // The call of a conversion function.
  lemma ConversionStep(c: Setting, k: nat, code: seq<Instr>, pc: nat, im: IrStore, dst: nat, fn: Runtime, o: Opd)
    requires c.After(k) == IrRunning(code, pc, im) && pc < |code| && code[pc] == CallRt(dst, fn, [o])
    requires fn.IntToAnyFn? || fn.AnyToIntFn? || fn.BoolToAnyFn? || fn.AnyToBoolFn?
    ensures IrStep(c.env, LowerPackage(c.p), IrRunning(code, pc, im))
      == AfterRt(code, pc, im, dst, CallConversion(c.env, im, fn, Eval(im, o)))
    ensures c.After(k + 1) == AfterRt(code, pc, im, dst, CallConversion(c.env, im, fn, Eval(im, o)))
  {
    hide IrRun, LowerPackage, CallConversion;
    assert EvalAll(im, [o]) == [Eval(im, o)];
    NextStep(c, k);
  }

  lemma CastExecutes(p: Package, env: Env, m: Store, lhs: Operand, rhs: Operand, lhsTag: TypeTag,
                     rest: seq<Insn>, term: Terminator)
    requires TagOf(p, m.frame.fn, lhs) == Some(lhsTag) && Read(m, rhs).Some?
    ensures ExecInsn(p, env, m, TypeCast(lhs, rhs), rest, term)
      == Finish(m, lhs, CastValue(env.arith, lhsTag, Read(m, rhs).value), rest, term)
  {
    hide TagOf, Finish, CastValue;
  }

  lemma SimulateUnwrap(c: Setting, m: Store, lhs: Operand, rhs: Operand, fn: Runtime, lhsTag: TypeTag, rhsTag: TypeTag,
                       rest: seq<Insn>, term: Terminator, code: seq<Instr>, pc: nat, im: IrStore, n: nat)
    requires Poised(c, m, TypeCast(lhs, rhs), rest, term, code, pc, im, n) && Read(m, rhs).Some?
    requires TagOf(c.p, m.frame.fn, lhs) == Some(lhsTag) && TagOf(c.p, m.frame.fn, rhs) == Some(rhsTag)
    requires Converts(fn, lhsTag, rhsTag) && (fn.AnyToIntFn? || fn.AnyToBoolFn?)
    requires CastAgrees(lhsTag, Read(m, rhs).value)
    ensures Reaches(c, 3, ExecInsn(c.p, c.env.bir, m, TypeCast(lhs, rhs), rest, term))
  {
    hide IrRun, StoreMatch, Lowered, WfRest, TagOf, RefOf, CastValue, CallConversion, Match, LowerPackage, CastAgrees,
      Poised, Readable, Writable, IrStep, ExecInsn, Reaches, Read, Setting.After;
    var x := Read(m, rhs).value;
    CastExecutes(c.p, c.env.bir, m, lhs, rhs, lhsTag, rest, term);
    ConversionCode(c, m, lhs, rhs, fn, lhsTag, rhsTag, rest, term, code, pc, im, n);
    var im1 := LoadStep(c, 0, m, code, pc, im, n, rhs, rhsTag);
    UnwrapFaithful(c.env, im1, fn, lhsTag, x, im1.frame.tmps[n]);
    ConversionStep(c, 1, code, pc + 1, im1, n + 1, fn, Tmp(n));
    var e := CastValue(c.env.bir.arith, lhsTag, x);
    if e.Value? {
      var im2 := ComputeStep(c, 1, m, code, pc + 1, im1, n + 1, ToIr(e.v));
      var im3 := StoreStep(c, 2, m, code, pc + 2, im2, Tmp(n + 1), lhs, lhsTag, e.v);
      ReachesRest(c, 3, Write(m, lhs, e.v), rest, term, code, pc + 3, im3, n + 2);
    } else {
      assert c.After(2) == IrAborted(im1.trace);
      PanicMatches(c, 2, m, im1);
      ReachesEnd(c, 2, 3, Panicked(m.trace));
    }
  }

  lemma PanicMatches(c: Setting, k: nat, m: Store, im: IrStore)
    requires StoreMatch(c.p, m, im) && c.After(k) == IrAborted(im.trace)
    ensures Reaches(c, k, Panicked(m.trace))
  {
  }

  // A call that only adds boxes to the heap and yields a temporary.
  lemma BoxStep(c: Setting, k: nat, m: Store, code: seq<Instr>, pc: nat, im: IrStore, dst: nat, heap: Heap, iv: IrVal)
    returns (im': IrStore)
    requires c.After(k) == IrRunning(code, pc, im) && StoreMatch(c.p, m, im) && Extends(im.heap, heap)
    requires IrStep(c.env, LowerPackage(c.p), IrRunning(code, pc, im))
      == IrRunning(code, pc + 1, SetTmp(im.(heap := heap), dst, iv))
    ensures im' == SetTmp(im.(heap := heap), dst, iv)
    ensures c.After(k + 1) == IrRunning(code, pc + 1, im') && StoreMatch(c.p, m, im')
  {
    hide IrRun, LowerPackage, IrStep, Extends, FrameMatch, CellsMatch, CallersMatch;
    NextStep(c, k);
    StoreMatchGrows(c.p, m, im, m.maps, im.tables, heap);
    assert m.(maps := m.maps) == m;
    var grown := im.(tables := im.tables, heap := heap);
    im' := SetTmp(grown, dst, iv);
    ScratchMatch(c.p, m, grown, im'.frame.tmps, im'.frame.outs);
  }

  lemma SimulateWrap(c: Setting, m: Store, lhs: Operand, rhs: Operand, fn: Runtime, lhsTag: TypeTag, rhsTag: TypeTag,
                     rest: seq<Insn>, term: Terminator, code: seq<Instr>, pc: nat, im: IrStore, n: nat)
    requires Poised(c, m, TypeCast(lhs, rhs), rest, term, code, pc, im, n) && Read(m, rhs).Some?
    requires TagOf(c.p, m.frame.fn, lhs) == Some(lhsTag) && TagOf(c.p, m.frame.fn, rhs) == Some(rhsTag)
    requires Converts(fn, lhsTag, rhsTag) && (fn.IntToAnyFn? || fn.BoolToAnyFn?)
    ensures Reaches(c, 3, ExecInsn(c.p, c.env.bir, m, TypeCast(lhs, rhs), rest, term))
  {
    hide IrRun, StoreMatch, Lowered, WfRest, TagOf, RefOf, CallConversion, Match, LowerPackage, Extends, AnyMatch,
      Poised, Readable, Writable, IrStep, ExecInsn, Reaches, Read, Setting.After;
    var x := Read(m, rhs).value;
    CastExecutes(c.p, c.env.bir, m, lhs, rhs, lhsTag, rest, term);
    ConversionCode(c, m, lhs, rhs, fn, lhsTag, rhsTag, rest, term, code, pc, im, n);
    var im1 := LoadStep(c, 0, m, code, pc, im, n, rhs, rhsTag);
    WrapFaithful(c.env, im1, fn, x);
    ConversionStep(c, 1, code, pc + 1, im1, n + 1, fn, Tmp(n));
    var r := CallConversion(c.env, im1, fn, ToIr(x));
    if r.RtReturns? {
      var im2 := BoxStep(c, 1, m, code, pc + 1, im1, n + 1, r.m.heap, r.v);
      var im3 := StoreStep(c, 2, m, code, pc + 2, im2, Tmp(n + 1), lhs, lhsTag, x);
      ReachesRest(c, 3, Write(m, lhs, x), rest, term, code, pc + 3, im3, n + 2);
    } else {
      ReachesExhausted(c, 2, Running(Write(m, lhs, x), rest, term));
      ReachesEnd(c, 2, 3, Running(Write(m, lhs, x), rest, term));
    }
  }

  // The load of the target that the conversion from float emits is not used.
  lemma LoadUnused(c: Setting, k: nat, m: Store, code: seq<Instr>, pc: nat, im: IrStore, dst: nat, op: Operand)
    returns (im': IrStore)
    requires c.After(k) == IrRunning(code, pc, im) && pc < |code| && code[pc] == LoadOf(dst, op)
    requires StoreMatch(c.p, m, im) && TagOf(c.p, m.frame.fn, op).Some?
    ensures c.After(k + 1) == IrRunning(code, pc + 1, im') && StoreMatch(c.p, m, im')
    ensures forall i: nat :: i != dst ==> Eval(im', Tmp(i)) == Eval(im, Tmp(i))
  {
    hide WfBody, LowerBody, CallersMatch, MapsMatch, LowerPackage, CellMatch;
    NextStep(c, k);
    assert Fetch(im, RefOf(op)).Some?;
    im' := SetTmp(im, dst, Fetch(im, RefOf(op)).value);
    ScratchMatch(c.p, m, im, im'.frame.tmps, im'.frame.outs);
  }

  lemma FloatCastCode(c: Setting, m: Store, lhs: Operand, rhs: Operand,
                      rest: seq<Insn>, term: Terminator, code: seq<Instr>, pc: nat, im: IrStore, n: nat)
    requires Poised(c, m, TypeCast(lhs, rhs), rest, term, code, pc, im, n)
    requires TagOf(c.p, m.frame.fn, lhs) == Some(IntTag) && TagOf(c.p, m.frame.fn, rhs) == Some(FloatTag)
    ensures c.After(0) == IrRunning(code, pc, im) && StoreMatch(c.p, m, im) && WfRest(c.p, m.frame.fn, rest, term)
    ensures Readable(c.p, m.frame.fn, rhs, FloatTag) && Writable(c.p, m.frame.fn, lhs, IntTag)
    ensures pc + 4 <= |code| && code[pc] == LoadOf(n, rhs) && code[pc + 1] == LoadOf(n + 1, lhs)
    ensures code[pc + 2] == FPToSI(n + 2, Tmp(n)) && code[pc + 3] == StoreTo(Tmp(n + 2), RefOf(lhs))
    ensures code[pc + 4..] == Lowered(c.p, m.frame.fn, rest, Some(term), n + 3)
  {
    hide IrRun, StoreMatch, Lowered, WfRest, TagOf, IsMainResult, RefOf, LowerPackage;
    Window(code, pc, LowerInsn(c.p, m.frame.fn, TypeCast(lhs, rhs), n));
  }

  lemma FloatStep(c: Setting, k: nat, m: Store, code: seq<Instr>, pc: nat, im: IrStore, dst: nat, o: Opd, x: Val)
    returns (im': IrStore)
    requires c.After(k) == IrRunning(code, pc, im) && StoreMatch(c.p, m, im)
    requires pc < |code| && code[pc] == FPToSI(dst, o) && x.FloatV? && Eval(im, o) == F64(x.f)
    ensures im' == SetTmp(im, dst, I64(c.env.bir.arith.toInt(x.f)))
    ensures c.After(k + 1) == IrRunning(code, pc + 1, im') && StoreMatch(c.p, m, im')
  {
    hide IrRun, StoreMatch, LowerPackage;
    im' := ComputeStep(c, k, m, code, pc, im, dst, I64(c.env.bir.arith.toInt(x.f)));
  }

  // The conversion, up to the store of its result.
  lemma FloatComputed(c: Setting, m: Store, lhs: Operand, rhs: Operand, code: seq<Instr>, pc: nat, im: IrStore, n: nat)
    returns (im': IrStore)
    requires c.After(0) == IrRunning(code, pc, im) && StoreMatch(c.p, m, im)
    requires Readable(c.p, m.frame.fn, rhs, FloatTag) && Read(m, rhs).Some? && TagOf(c.p, m.frame.fn, lhs).Some?
    requires pc + 3 <= |code| && code[pc] == LoadOf(n, rhs) && code[pc + 1] == LoadOf(n + 1, lhs)
    requires code[pc + 2] == FPToSI(n + 2, Tmp(n))
    ensures c.After(3) == IrRunning(code, pc + 3, im') && StoreMatch(c.p, m, im')
    ensures Read(m, rhs).value.FloatV? && Eval(im', Tmp(n + 2)) == I64(c.env.bir.arith.toInt(Read(m, rhs).value.f))
  {
    hide IrRun, StoreMatch, TagOf, RefOf, LowerPackage, Readable, IrStep, Read, Setting.After;
    var im1 := LoadPlain(c, 0, m, code, pc, im, n, rhs, FloatTag);
    var im2 := LoadUnused(c, 1, m, code, pc + 1, im1, n + 1, lhs);
    im' := FloatStep(c, 2, m, code, pc + 2, im2, n + 2, Tmp(n), Read(m, rhs).value);
  }

  lemma SimulateFloatToInt(c: Setting, m: Store, lhs: Operand, rhs: Operand,
                           rest: seq<Insn>, term: Terminator, code: seq<Instr>, pc: nat, im: IrStore, n: nat)
    requires Poised(c, m, TypeCast(lhs, rhs), rest, term, code, pc, im, n) && Read(m, rhs).Some?
    requires TagOf(c.p, m.frame.fn, lhs) == Some(IntTag) && TagOf(c.p, m.frame.fn, rhs) == Some(FloatTag)
    ensures Reaches(c, 4, ExecInsn(c.p, c.env.bir, m, TypeCast(lhs, rhs), rest, term))
  {
    hide IrRun, StoreMatch, Lowered, WfRest, TagOf, IsMainResult, RefOf, Match, LowerPackage, Poised, Readable,
      Writable, IrStep, Reaches, ExecInsn, Read, Setting.After, LoadOf;
    FloatCastCode(c, m, lhs, rhs, rest, term, code, pc, im, n);
    CastExecutes(c.p, c.env.bir, m, lhs, rhs, IntTag, rest, term);
    var im3 := FloatComputed(c, m, lhs, rhs, code, pc, im, n);
    var v := IntV(c.env.bir.arith.toInt(Read(m, rhs).value.f));
    var im4 := StoreStep(c, 3, m, code, pc + 3, im3, Tmp(n + 2), lhs, IntTag, v);
    ReachesRest(c, 4, Write(m, lhs, v), rest, term, code, pc + 4, im4, n + 3);
  }

  lemma SimulateRewrap(c: Setting, m: Store, lhs: Operand, rhs: Operand,
                       rest: seq<Insn>, term: Terminator, code: seq<Instr>, pc: nat, im: IrStore, n: nat)
    requires Poised(c, m, TypeCast(lhs, rhs), rest, term, code, pc, im, n) && Read(m, rhs).Some?
    requires TagOf(c.p, m.frame.fn, lhs).Some? && TagOf(c.p, m.frame.fn, rhs).Some?
    requires IsBalValue(TagOf(c.p, m.frame.fn, lhs).value) && IsBalValue(TagOf(c.p, m.frame.fn, rhs).value)
    ensures Reaches(c, 2, ExecInsn(c.p, c.env.bir, m, TypeCast(lhs, rhs), rest, term))
  {
    hide IrRun, StoreMatch, Lowered, WfRest, TagOf, IsMainResult, RefOf, Match, LowerPackage;
    var f := m.frame.fn;
    var x := Read(m, rhs).value;
    var lhsTag, rhsTag := TagOf(c.p, f, lhs).value, TagOf(c.p, f, rhs).value;
    Window(code, pc, LowerInsn(c.p, f, TypeCast(lhs, rhs), n));
    WordReads(c.p, m, im, rhs, rhsTag);
    var im' := CopyStep(c, 0, m, code, pc, im, n, lhs, rhs, lhsTag, rhsTag);
    ReachesRest(c, 2, Write(m, lhs, x), rest, term, code, pc + 2, im', n + 1);
  }

  lemma WordReads(p: Package, m: Store, im: IrStore, op: Operand, tag: TypeTag)
    requires StoreMatch(p, m, im) && Readable(p, m.frame.fn, op, tag) && IsBalValue(tag) && Read(m, op).Some?
    ensures Read(m, op).value.IntV? || Read(m, op).value.BoolV?
  {
    hide IrRun, StoreMatch, Readable;
    ReadMatch(p, m, im, op, tag);
  }

  lemma SimulateCast(c: Setting, m: Store, lhs: Operand, rhs: Operand,
                     rest: seq<Insn>, term: Terminator, code: seq<Instr>, pc: nat, im: IrStore, n: nat)
    requires Poised(c, m, TypeCast(lhs, rhs), rest, term, code, pc, im, n) && Read(m, rhs).Some?
    requires TagOf(c.p, m.frame.fn, lhs).Some? && CastAgrees(TagOf(c.p, m.frame.fn, lhs).value, Read(m, rhs).value)
    ensures Reaches(c, |LowerInsn(c.p, m.frame.fn, TypeCast(lhs, rhs), n)|,
                    ExecInsn(c.p, c.env.bir, m, TypeCast(lhs, rhs), rest, term))
  {
    hide IrRun, StoreMatch, Lowered, WfRest, Reaches, ExecInsn, CastAgrees;
    var f := m.frame.fn;
    var lhsTag, rhsTag := TagOf(c.p, f, lhs).value, TagOf(c.p, f, rhs).value;
    hide TagOf;
    if IsBalValue(rhsTag) {
      if IsBalValue(lhsTag) {
        SimulateRewrap(c, m, lhs, rhs, rest, term, code, pc, im, n);
      } else if lhsTag.BooleanTag? {
        SimulateUnwrap(c, m, lhs, rhs, AnyToBoolFn, lhsTag, rhsTag, rest, term, code, pc, im, n);
      } else {
        SimulateUnwrap(c, m, lhs, rhs, AnyToIntFn, lhsTag, rhsTag, rest, term, code, pc, im, n);
      }
    } else if IsBalValue(lhsTag) {
      SimulateWrap(c, m, lhs, rhs, if rhsTag.BooleanTag? then BoolToAnyFn else IntToAnyFn, lhsTag, rhsTag,
                   rest, term, code, pc, im, n);
    } else {
      SimulateFloatToInt(c, m, lhs, rhs, rest, term, code, pc, im, n);
    }
  }

  // ----- Pairs without a conversion -----

  // An instruction that leaves every cell as it is.
  predicate StoresNothing(i: Instr) {
    i.Load? || i.BitCast?
  }

  // For a supported pair of types without a conversion, the emitted code stores
  // nothing, so the target keeps its value whatever the operand is.
  lemma PointerCastStoresNothing(p: Package, f: Function, lhs: Operand, rhs: Operand, n: nat)
    requires TagOf(p, f, lhs).Some? && TagOf(p, f, rhs).Some?
    requires CastSupported(TagOf(p, f, lhs).value, TagOf(p, f, rhs).value)
    ensures (forall i :: 0 <= i < |LowerInsn(p, f, TypeCast(lhs, rhs), n)| ==>
               StoresNothing(LowerInsn(p, f, TypeCast(lhs, rhs), n)[i]))
            <==> !WfCast(TagOf(p, f, lhs).value, TagOf(p, f, rhs).value)
  {
    hide TagOf;
    var code := LowerInsn(p, f, TypeCast(lhs, rhs), n);
    if WfCast(TagOf(p, f, lhs).value, TagOf(p, f, rhs).value) {
      assert code[|code| - 1].StoreTo?;
    }
  }

  // Casting an integer in an any to boolean: the language panics, the emitted code
  // answers false.
  lemma IntToBooleanDisagrees(env: IrEnv, im: IrStore)
    ensures CastValue(env.bir.arith, BooleanTag, IntV(7)).Panic?
    ensures AnyMatch(IntV(7), Ptr(15), im.heap)
    ensures CallConversion(env, im, AnyToBoolFn, Ptr(15)) == RtReturns(I1(false), im)
  {
  }
}

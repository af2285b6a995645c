// One step of a package is matched by the steps of its emitted code.
module Simulation {
  import opened Options
  import opened Words
  import opened Division
  import opened Ir
  import opened Bir
  import opened Lowering
  import opened Matching

  // A package, what it runs in, and the state its emitted code starts from.
  datatype Setting = Setting(p: Package, env: IrEnv, start: IrState) {
    // The state of the emitted code after k steps.
    function After(k: nat): IrState {
      IrRun(env, LowerPackage(p), start, k)
    }
  }

  lemma NextStep(c: Setting, k: nat)
    ensures c.After(k + 1) == IrStep(c.env, LowerPackage(c.p), c.After(k))
  {
    IrRunSplit(c.env, LowerPackage(c.p), c.start, k, 1);
  }

  // ----- Single instructions of the emitted code -----

  // A load brings the value of a variable into a temporary.
  lemma LoadStep(c: Setting, k: nat, m: Store, code: seq<Instr>, pc: nat, im: IrStore,
                 dst: nat, op: Operand, tag: TypeTag) returns (im': IrStore)
    requires c.After(k) == IrRunning(code, pc, im) && pc < |code| && code[pc] == LoadOf(dst, op)
    requires StoreMatch(c.p, m, im) && Readable(c.p, m.frame.fn, op, tag) && Read(m, op).Some?
    ensures c.After(k + 1) == IrRunning(code, pc + 1, im')
    ensures StoreMatch(c.p, m, im') && im'.heap == im.heap && im'.tables == im.tables
    ensures dst in im'.frame.tmps && im'.frame.tmps == im.frame.tmps[dst := im'.frame.tmps[dst]]
    ensures ValMatch(tag, Read(m, op).value, im'.frame.tmps[dst], im'.heap, |m.maps|)
    ensures im'.frame.outs == im.frame.outs
  {
    hide IrRun, StoreMatch, ValMatch, Readable, LowerPackage;
    NextStep(c, k);
    ReadMatch(c.p, m, im, op, tag);
    var iv := Fetch(im, RefOf(op)).value;
    im' := SetTmp(im, dst, iv);
    ScratchMatch(c.p, m, im, im'.frame.tmps, im'.frame.outs);
  }

  // The same for a type whose values are not words.
  lemma LoadPlain(c: Setting, k: nat, m: Store, code: seq<Instr>, pc: nat, im: IrStore,
                  dst: nat, op: Operand, tag: TypeTag) returns (im': IrStore)
    requires c.After(k) == IrRunning(code, pc, im) && pc < |code| && code[pc] == LoadOf(dst, op)
    requires StoreMatch(c.p, m, im) && Readable(c.p, m.frame.fn, op, tag) && Read(m, op).Some? && !IsBalValue(tag)
    ensures c.After(k + 1) == IrRunning(code, pc + 1, im')
    ensures StoreMatch(c.p, m, im') && im'.heap == im.heap && im'.tables == im.tables
    ensures HasTag(Read(m, op).value, tag)
    ensures im'.frame.tmps == im.frame.tmps[dst := ToIr(Read(m, op).value)]
    ensures im'.frame.outs == im.frame.outs
  {
    hide IrRun, StoreMatch, Readable, LowerPackage;
    im' := LoadStep(c, k, m, code, pc, im, dst, op, tag);
  }

  // A store into the cell of a variable writes the variable.
  lemma StoreStep(c: Setting, k: nat, m: Store, code: seq<Instr>, pc: nat, im: IrStore,
                  o: Opd, op: Operand, tag: TypeTag, v: Val) returns (im': IrStore)
    requires c.After(k) == IrRunning(code, pc, im) && pc < |code| && code[pc] == StoreTo(o, RefOf(op))
    requires StoreMatch(c.p, m, im) && Writable(c.p, m.frame.fn, op, tag)
    requires ValMatch(tag, v, Eval(im, o), im.heap, |m.maps|)
    ensures c.After(k + 1) == IrRunning(code, pc + 1, im')
    ensures StoreMatch(c.p, Write(m, op, v), im') && im'.heap == im.heap && im'.tables == im.tables
    ensures im'.frame.tmps == im.frame.tmps
  {
    hide IrRun, StoreMatch, ValMatch, Writable, LowerPackage;
    NextStep(c, k);
    WriteMatch(c.p, m, im, op, tag, v, Eval(im, o));
    im' := Assign(im, RefOf(op), Eval(im, o));
  }

  // An instruction that only computes a temporary.
  lemma ComputeStep(c: Setting, k: nat, m: Store, code: seq<Instr>, pc: nat, im: IrStore, dst: nat, iv: IrVal)
    returns (im': IrStore)
    requires c.After(k) == IrRunning(code, pc, im) && StoreMatch(c.p, m, im)
    requires IrStep(c.env, LowerPackage(c.p), IrRunning(code, pc, im)) == IrRunning(code, pc + 1, SetTmp(im, dst, iv))
    ensures im' == SetTmp(im, dst, iv)
    ensures c.After(k + 1) == IrRunning(code, pc + 1, im') && StoreMatch(c.p, m, im')
  {
    hide IrRun, StoreMatch, LowerPackage, IrStep;
    NextStep(c, k);
    im' := SetTmp(im, dst, iv);
    ScratchMatch(c.p, m, im, im'.frame.tmps, im'.frame.outs);
  }

  // A load of any cell.
  lemma LoadCell(c: Setting, k: nat, m: Store, code: seq<Instr>, pc: nat, im: IrStore, dst: nat, r: Ref, iv: IrVal)
    returns (im': IrStore)
    requires c.After(k) == IrRunning(code, pc, im) && StoreMatch(c.p, m, im)
    requires pc < |code| && code[pc] == Load(dst, r) && Fetch(im, r) == Some(iv)
    ensures im' == SetTmp(im, dst, iv)
    ensures c.After(k + 1) == IrRunning(code, pc + 1, im') && StoreMatch(c.p, m, im')
  {
    hide IrRun, StoreMatch, LowerPackage, Fetch;
    im' := ComputeStep(c, k, m, code, pc, im, dst, iv);
  }

  lemma OpStep(c: Setting, k: nat, m: Store, code: seq<Instr>, pc: nat, im: IrStore,
               dst: nat, op: IrOp, a: Opd, b: Opd, iv: IrVal) returns (im': IrStore)
    requires c.After(k) == IrRunning(code, pc, im) && StoreMatch(c.p, m, im)
    requires pc < |code| && code[pc] == Op(dst, op, a, b)
    requires OpValue(c.env.bir.arith, op, Eval(im, a), Eval(im, b)) == Some(iv)
    ensures im' == SetTmp(im, dst, iv)
    ensures c.After(k + 1) == IrRunning(code, pc + 1, im') && StoreMatch(c.p, m, im')
  {
    hide IrRun, StoreMatch, LowerPackage, OpValue;
    im' := ComputeStep(c, k, m, code, pc, im, dst, iv);
  }

  // ----- What a step must reach -----

  // After k steps the emitted code stands for s, unless it ran out of memory or
  // table capacity.
  ghost predicate Reaches(c: Setting, k: nat, s: State) {
    c.After(k).IrExhausted? || Match(c.p, s, c.After(k))
  }

  // The emitted code is at the instructions left over after the first.
  lemma ReachesRest(c: Setting, k: nat, m: Store, rest: seq<Insn>, term: Terminator,
                    code: seq<Instr>, pc: nat, im: IrStore, n: nat)
    requires c.After(k) == IrRunning(code, pc, im) && StoreMatch(c.p, m, im)
    requires pc <= |code| && code[pc..] == Lowered(c.p, m.frame.fn, rest, Some(term), n)
    requires WfRest(c.p, m.frame.fn, rest, term)
    ensures Reaches(c, k, Running(m, rest, term))
  {
    hide IrRun, StoreMatch, Lowered, WfRest;
  }

  lemma ReachesStuck(c: Setting, k: nat)
    ensures Reaches(c, k, Stuck)
  {
  }

  lemma ReachesExhausted(c: Setting, k: nat, s: State)
    requires c.After(k).IrExhausted?
    ensures Reaches(c, k, s)
  {
  }

  lemma ReachesEnd(c: Setting, k: nat, k': nat, s: State)
    requires k <= k' && !c.After(k).IrRunning? && Reaches(c, k, s)
    ensures Reaches(c, k', s)
  {
    hide Match, LowerPackage;
    IrRunSplit(c.env, LowerPackage(c.p), c.start, k, k' - k);
    IrEnded(c.env, LowerPackage(c.p), c.After(k), k' - k);
  }

  lemma WfTail(p: Package, f: Function, rest: seq<Insn>, term: Terminator)
    requires WfRest(p, f, rest, term) && rest != []
    ensures WfInsn(p, f, rest[0]) && WfRest(p, f, rest[1..], term)
  {
    hide WfInsn, WfTerm;
    assert WfInsn(p, f, rest[0]);
  }

  // The package is about to execute i, and the emitted code its translation.
  ghost predicate Poised(c: Setting, m: Store, i: Insn, rest: seq<Insn>, term: Terminator,
                         code: seq<Instr>, pc: nat, im: IrStore, n: nat)
  {
    var f := m.frame.fn;
    var a := LowerInsn(c.p, f, i, n);
    && c.After(0) == IrRunning(code, pc, im) && StoreMatch(c.p, m, im)
    && WfInsn(c.p, f, i) && WfRest(c.p, f, rest, term)
    && pc + |a| <= |code| && code[pc..pc + |a|] == a
    && code[pc + |a|..] == Lowered(c.p, f, rest, Some(term), n + InsnTemps(c.p, f, i))
  }

  lemma MatchIsPoised(c: Setting, m: Store, rest: seq<Insn>, term: Terminator,
                      code: seq<Instr>, pc: nat, im: IrStore) returns (n: nat)
    requires c.start == IrRunning(code, pc, im) && Match(c.p, Running(m, rest, term), c.start) && rest != []
    ensures Poised(c, m, rest[0], rest[1..], term, code, pc, im, n)
  {
    hide StoreMatch, LowerInsn, Lowered, InsnTemps, WfInsn;
    var f := m.frame.fn;
    n := NextInsn(c.p, f, rest, term, code, pc);
    WfTail(c.p, f, rest, term);
  }

  // The instructions at pc, one by one; no translation but that of a mapping
  // constructor is longer than seven.
  lemma Window(code: seq<Instr>, pc: nat, a: seq<Instr>)
    requires pc + |a| <= |code| && code[pc..pc + |a|] == a
    ensures |a| > 0 ==> code[pc] == a[0]
    ensures |a| > 1 ==> code[pc + 1] == a[1]
    ensures |a| > 2 ==> code[pc + 2] == a[2]
    ensures |a| > 3 ==> code[pc + 3] == a[3]
    ensures |a| > 4 ==> code[pc + 4] == a[4]
    ensures |a| > 5 ==> code[pc + 5] == a[5]
    ensures |a| > 6 ==> code[pc + 6] == a[6]
  {
    var w := code[pc..pc + |a|];
    assert forall j :: 0 <= j < |w| ==> w[j] == code[pc + j];
  }

  // A move, and a cast between two word-represented types, copy the word.
  lemma CopyStep(c: Setting, k: nat, m: Store, code: seq<Instr>, pc: nat, im: IrStore,
                 n: nat, lhs: Operand, rhs: Operand, lhsTag: TypeTag, rhsTag: TypeTag) returns (im': IrStore)
    requires c.After(k) == IrRunning(code, pc, im) && pc + 2 <= |code|
    requires code[pc] == LoadOf(n, rhs) && code[pc + 1] == StoreTo(Tmp(n), RefOf(lhs))
    requires StoreMatch(c.p, m, im)
    requires Readable(c.p, m.frame.fn, rhs, rhsTag) && Read(m, rhs).Some?
    requires Writable(c.p, m.frame.fn, lhs, lhsTag)
    requires lhsTag == rhsTag || (IsBalValue(lhsTag) && IsBalValue(rhsTag))
    ensures c.After(k + 2) == IrRunning(code, pc + 2, im')
    ensures StoreMatch(c.p, Write(m, lhs, Read(m, rhs).value), im')
  {
    hide IrRun, StoreMatch, Readable, Writable;
    var im1 := LoadStep(c, k, m, code, pc, im, n, rhs, rhsTag);
    im' := StoreStep(c, k + 1, m, code, pc + 1, im1, Tmp(n), lhs, lhsTag, Read(m, rhs).value);
  }

  lemma SimulateMove(c: Setting, m: Store, lhs: Operand, rhs: Operand, rest: seq<Insn>, term: Terminator,
                     code: seq<Instr>, pc: nat, im: IrStore, n: nat)
    requires Poised(c, m, Move(lhs, rhs), rest, term, code, pc, im, n)
    ensures Reaches(c, 2, ExecInsn(c.p, c.env.bir, m, Move(lhs, rhs), rest, term))
  {
    hide IrRun, StoreMatch, Lowered, WfRest, IsBalValue, TagOf, IsMainResult, RefOf, Reaches;
    var f := m.frame.fn;
    Window(code, pc, LowerInsn(c.p, f, Move(lhs, rhs), n));
    if Read(m, rhs).Some? {
      var im' := CopyStep(c, 0, m, code, pc, im, n, lhs, rhs, TagOf(c.p, f, lhs).value, TagOf(c.p, f, rhs).value);
      ReachesRest(c, 2, Write(m, lhs, Read(m, rhs).value), rest, term, code, pc + 2, im', n + 1);
    } else {
      ReachesStuck(c, 2);
    }
  }

  // ----- Operators -----

  // Where arithmetic is checked, the result fits; the emitted instruction wraps.
  predicate InRange(ar: Arithmetic, n: int) {
    ar.checked ==> Fits(n)
  }

  // The operands on which the emitted operator does what the language's does.
  predicate BinaryAgrees(ar: Arithmetic, kind: BinaryKind, x: Val, y: Val) {
    match kind
    case Add => x.IntV? && y.IntV? ==> InRange(ar, x.n + y.n)
    case Sub => x.IntV? && y.IntV? ==> InRange(ar, x.n - y.n)
    case Mul => x.IntV? && y.IntV? ==> InRange(ar, x.n * y.n)
    case Div => x.IntV? && y.IntV? ==> y.n != 0 && DivAgrees(x.n, y.n)
    case Mod => x.IntV? && y.IntV? ==> y.n != 0 && RemAgrees(x.n, y.n)
    case NotEqual => x.FloatV? && y.FloatV? ==> ar.ordered(x.f, y.f) || ar.eq(x.f, y.f)
    case _ => true
  }

  // The language gives a value and the emitted operator gives the same one.
  predicate SameResult(ar: Arithmetic, kind: BinaryKind, tag: TypeTag, x: Val, y: Val) {
    var v := BinaryValue(ar, kind, x, y);
    v.Value? && OpValue(ar, BinaryOpOf(kind, tag), ToIr(x), ToIr(y)) == Some(ToIr(v.v))
  }

  // Exactly on those operands is the translation of an operator faithful.
  lemma OperatorFaithfulIff(ar: Arithmetic, kind: BinaryKind, lhsTag: TypeTag, tag: TypeTag, x: Val, y: Val)
    requires WfBinary(kind, lhsTag, tag) && HasTag(x, tag) && HasTag(y, tag)
    ensures SameResult(ar, kind, tag, x, y) <==> BinaryAgrees(ar, kind, x, y)
    ensures SameResult(ar, kind, tag, x, y) ==> HasTag(BinaryValue(ar, kind, x, y).v, lhsTag)
  {
    if tag.IntTag? {
      IntOperatorFaithfulIff(ar, kind, lhsTag, x.n, y.n);
    } else if tag.FloatTag? {
      FloatOperatorFaithfulIff(ar, kind, lhsTag, x.f, y.f);
    }
  }

  lemma IntOperatorFaithfulIff(ar: Arithmetic, kind: BinaryKind, lhsTag: TypeTag, a: Int64, b: Int64)
    requires WfBinary(kind, lhsTag, IntTag)
    ensures SameResult(ar, kind, IntTag, IntV(a), IntV(b)) <==> BinaryAgrees(ar, kind, IntV(a), IntV(b))
    ensures IntBinary(ar, kind, a, b).Value? ==> HasTag(IntBinary(ar, kind, a, b).v, lhsTag)
  {
    hide DivAgrees, RemAgrees, SignedDiv, SignedRem, UDiv, URem, Xor, Wrap, FloatBinary, FloatOp;
    if b != 0 {
      UnsignedDivisionAgreesIff(a, b);
      UnsignedRemainderAgreesIff(a, b);
    }
  }

  lemma FloatOperatorFaithfulIff(ar: Arithmetic, kind: BinaryKind, lhsTag: TypeTag, a: Word, b: Word)
    requires WfBinary(kind, lhsTag, FloatTag)
    ensures SameResult(ar, kind, FloatTag, FloatV(a), FloatV(b)) <==> BinaryAgrees(ar, kind, FloatV(a), FloatV(b))
    ensures FloatBinary(ar, kind, a, b).Value? && HasTag(FloatBinary(ar, kind, a, b).v, lhsTag)
  {
    hide IntBinary, IntOp;
  }

  // Two floats of which one is not a number differ; the emitted comparison answers
  // that they do not.
  lemma UnorderedDoNotDiffer(ar: Arithmetic, a: Word, b: Word)
    requires !ar.ordered(a, b) && !ar.eq(a, b)
    ensures BinaryValue(ar, NotEqual, FloatV(a), FloatV(b)) == Value(BoolV(true))
    ensures OpValue(ar, BinaryOpOf(NotEqual, FloatTag), F64(a), F64(b)) == Some(I1(false))
  {
  }

  // Where arithmetic is checked, one more than the largest integer panics; the
  // emitted addition gives the smallest.
  lemma OverflowDisagrees(ar: Arithmetic)
    requires ar.checked
    ensures BinaryValue(ar, Add, IntV(TWO_63 - 1), IntV(1)).Panic?
    ensures OpValue(ar, BinaryOpOf(Add, IntTag), I64(TWO_63 - 1), I64(1)) == Some(I64(-TWO_63))
  {
  }

  lemma BinaryCode(c: Setting, m: Store, kind: BinaryKind, lhs: Operand, rhs1: Operand, rhs2: Operand,
                   lhsTag: TypeTag, tag: TypeTag, rest: seq<Insn>, term: Terminator,
                   code: seq<Instr>, pc: nat, im: IrStore, n: nat)
    requires Poised(c, m, Binary(kind, lhs, rhs1, rhs2), rest, term, code, pc, im, n)
    requires TagOf(c.p, m.frame.fn, lhs) == Some(lhsTag) && TagOf(c.p, m.frame.fn, rhs1) == Some(tag)
    ensures c.After(0) == IrRunning(code, pc, im) && StoreMatch(c.p, m, im) && WfRest(c.p, m.frame.fn, rest, term)
    ensures Readable(c.p, m.frame.fn, rhs1, tag) && Readable(c.p, m.frame.fn, rhs2, tag)
    ensures Writable(c.p, m.frame.fn, lhs, lhsTag) && WfBinary(kind, lhsTag, tag)
    ensures pc + 4 <= |code|
    ensures code[pc] == LoadOf(n, rhs1) && code[pc + 1] == LoadOf(n + 1, rhs2)
    ensures code[pc + 2] == Op(n + 2, BinaryOpOf(kind, tag), Tmp(n), Tmp(n + 1))
    ensures code[pc + 3] == StoreTo(Tmp(n + 2), RefOf(lhs))
    ensures code[pc + 4..] == Lowered(c.p, m.frame.fn, rest, Some(term), n + 3)
  {
    hide IrRun, StoreMatch, Lowered, WfRest, IsMainResult, RefOf, LowerPackage, BinaryOpOf, WfBinary, TagOf;
    Window(code, pc, LowerInsn(c.p, m.frame.fn, Binary(kind, lhs, rhs1, rhs2), n));
  }

  lemma OperandTags(c: Setting, m: Store, kind: BinaryKind, lhs: Operand, rhs1: Operand, rhs2: Operand,
                    rest: seq<Insn>, term: Terminator, code: seq<Instr>, pc: nat, im: IrStore, n: nat)
    requires Poised(c, m, Binary(kind, lhs, rhs1, rhs2), rest, term, code, pc, im, n)
    ensures TagOf(c.p, m.frame.fn, lhs).Some? && TagOf(c.p, m.frame.fn, rhs1).Some?
  {
    hide IrRun, StoreMatch, Lowered, WfRest, LowerPackage, LowerInsn, TagOf;
  }

  lemma SimulateBinary(c: Setting, m: Store, kind: BinaryKind, lhs: Operand, rhs1: Operand, rhs2: Operand,
                       rest: seq<Insn>, term: Terminator, code: seq<Instr>, pc: nat, im: IrStore, n: nat)
    requires Poised(c, m, Binary(kind, lhs, rhs1, rhs2), rest, term, code, pc, im, n)
    requires Read(m, rhs1).Some? && Read(m, rhs2).Some?
    requires BinaryAgrees(c.env.bir.arith, kind, Read(m, rhs1).value, Read(m, rhs2).value)
    ensures Reaches(c, 4, ExecInsn(c.p, c.env.bir, m, Binary(kind, lhs, rhs1, rhs2), rest, term))
  {
    hide IrRun, StoreMatch, Lowered, WfRest, TagOf, RefOf, Reaches, BinaryOpOf, BinaryValue, WfBinary, BinaryAgrees,
      OpValue, Poised, Readable, Writable, IrStep, Setting.After, Read, LowerPackage;
    var f := m.frame.fn;
    OperandTags(c, m, kind, lhs, rhs1, rhs2, rest, term, code, pc, im, n);
    var tag, lhsTag := TagOf(c.p, f, rhs1).value, TagOf(c.p, f, lhs).value;
    var x, y := Read(m, rhs1).value, Read(m, rhs2).value;
    BinaryCode(c, m, kind, lhs, rhs1, rhs2, lhsTag, tag, rest, term, code, pc, im, n);
    var im1 := LoadStep(c, 0, m, code, pc, im, n, rhs1, tag);
    var im2 := LoadStep(c, 1, m, code, pc + 1, im1, n + 1, rhs2, tag);
    NotWord(kind, lhsTag, tag);
    OperatorFaithfulIff(c.env.bir.arith, kind, lhsTag, tag, x, y);
    var v := BinaryValue(c.env.bir.arith, kind, x, y).v;
    var im3 := OpStep(c, 2, m, code, pc + 2, im2, n + 2, BinaryOpOf(kind, tag), Tmp(n), Tmp(n + 1), ToIr(v));
    var im4 := StoreStep(c, 3, m, code, pc + 3, im3, Tmp(n + 2), lhs, lhsTag, v);
    ReachesRest(c, 4, Write(m, lhs, v), rest, term, code, pc + 4, im4, n + 3);
  }

  lemma NotWord(kind: BinaryKind, lhsTag: TypeTag, tag: TypeTag)
    requires WfBinary(kind, lhsTag, tag)
    ensures IsScalar(lhsTag) && IsScalar(tag)
  {
  }

  predicate UnaryAgrees(ar: Arithmetic, op: UnaryKind, x: Val) {
    op.Neg? && x.IntV? ==> InRange(ar, 0 - x.n)
  }

  // The emitted negation and complement give the language's value exactly on those
  // operands.
  lemma UnaryFaithfulIff(ar: Arithmetic, op: UnaryKind, x: Val)
    requires HasTag(x, if op.Not? then BooleanTag else IntTag)
    ensures var v := UnaryValue(ar, op, x);
      && (v.Value? <==> UnaryAgrees(ar, op, x))
      && (v.Value? ==> HasTag(v.v, if op.Not? then BooleanTag else IntTag))
      && (v.Value? && op.Not? ==> OpValue(ar, XorOp, ToIr(x), I1(true)) == Some(ToIr(v.v)))
      && (v.Value? && op.Neg? ==> OpValue(ar, SubOp, I64(0), ToIr(x)) == Some(ToIr(v.v)))
      && !v.Wrong?
  {
  }

  lemma UnaryCode(c: Setting, m: Store, op: UnaryKind, lhs: Operand, rhs: Operand,
                  rest: seq<Insn>, term: Terminator, code: seq<Instr>, pc: nat, im: IrStore, n: nat)
    requires Poised(c, m, Unary(op, lhs, rhs), rest, term, code, pc, im, n)
    ensures c.After(0) == IrRunning(code, pc, im) && StoreMatch(c.p, m, im) && WfRest(c.p, m.frame.fn, rest, term)
    ensures var tag := if op.Not? then BooleanTag else IntTag;
      Readable(c.p, m.frame.fn, rhs, tag) && Writable(c.p, m.frame.fn, lhs, tag)
    ensures pc + 3 <= |code| && code[pc] == LoadOf(n, rhs)
    ensures code[pc + 1] ==
      if op.Not? then Op(n + 1, XorOp, Tmp(n), Lit(I1(true))) else Op(n + 1, SubOp, Lit(I64(0)), Tmp(n))
    ensures code[pc + 2] == StoreTo(Tmp(n + 1), RefOf(lhs))
    ensures code[pc + 3..] == Lowered(c.p, m.frame.fn, rest, Some(term), n + 2)
  {
    hide IrRun, StoreMatch, Lowered, WfRest, TagOf, IsMainResult, RefOf, LowerPackage;
    Window(code, pc, LowerInsn(c.p, m.frame.fn, Unary(op, lhs, rhs), n));
  }

  lemma SimulateUnary(c: Setting, m: Store, op: UnaryKind, lhs: Operand, rhs: Operand,
                      rest: seq<Insn>, term: Terminator, code: seq<Instr>, pc: nat, im: IrStore, n: nat)
    requires Poised(c, m, Unary(op, lhs, rhs), rest, term, code, pc, im, n) && Read(m, rhs).Some?
    requires UnaryAgrees(c.env.bir.arith, op, Read(m, rhs).value)
    ensures Reaches(c, 3, ExecInsn(c.p, c.env.bir, m, Unary(op, lhs, rhs), rest, term))
  {
    hide IrRun, StoreMatch, Lowered, WfRest, RefOf, Reaches, UnaryValue, UnaryAgrees, OpValue, IrStep, Poised, Readable,
      Writable;
    var tag := if op.Not? then BooleanTag else IntTag;
    UnaryCode(c, m, op, lhs, rhs, rest, term, code, pc, im, n);
    var im1 := LoadStep(c, 0, m, code, pc, im, n, rhs, tag);
    UnaryFaithfulIff(c.env.bir.arith, op, Read(m, rhs).value);
    var v := UnaryValue(c.env.bir.arith, op, Read(m, rhs).value).v;
    var xor := op.Not?;
    var im2 := OpStep(c, 1, m, code, pc + 1, im1, n + 1, if xor then XorOp else SubOp,
                      if xor then Tmp(n) else Lit(I64(0)), if xor then Lit(I1(true)) else Tmp(n), ToIr(v));
    var im3 := StoreStep(c, 2, m, code, pc + 2, im2, Tmp(n + 1), lhs, tag, v);
    ReachesRest(c, 3, Write(m, lhs, v), rest, term, code, pc + 3, im3, n + 2);
  }

  lemma ConstFaithful(f: Function, lhs: Operand, value: Constant, n: nat)
    ensures ValMatch(ConstTag(value), ConstValue(value), ToIr(ConstValue(value)), map[], 0)
    ensures !value.NilConst? ==> LowerConst(f, lhs, value, n) == [StoreTo(Lit(ToIr(ConstValue(value))), RefOf(lhs))]
  {
  }

  lemma SimulateConst(c: Setting, m: Store, lhs: Operand, value: Constant,
                      rest: seq<Insn>, term: Terminator, code: seq<Instr>, pc: nat, im: IrStore, n: nat)
    requires Poised(c, m, ConstLoad(lhs, value), rest, term, code, pc, im, n) && !value.NilConst?
    ensures Reaches(c, 1, ExecInsn(c.p, c.env.bir, m, ConstLoad(lhs, value), rest, term))
  {
    hide IrRun, StoreMatch, Lowered, WfRest, TagOf, IsMainResult, RefOf, Reaches, ValMatch, ConstValue, ToIr, ConstTag,
      LowerConst;
    var f := m.frame.fn;
    var v := ConstValue(value);
    ConstFaithful(f, lhs, value, n);
    ValMatchGrows(ConstTag(value), v, ToIr(v), map[], 0, im.heap, |m.maps|);
    Window(code, pc, LowerInsn(c.p, f, ConstLoad(lhs, value), n));
    var im1 := StoreStep(c, 0, m, code, pc, im, Lit(ToIr(v)), lhs, ConstTag(value), v);
    ReachesRest(c, 1, Write(m, lhs, v), rest, term, code, pc + 1, im1, n);
  }

  lemma NilCode(c: Setting, m: Store, lhs: Operand, rest: seq<Insn>, term: Terminator,
                code: seq<Instr>, pc: nat, im: IrStore, n: nat)
    requires Poised(c, m, ConstLoad(lhs, NilConst), rest, term, code, pc, im, n) && !NamesMainResult(m.frame.fn, lhs)
    ensures c.After(0) == IrRunning(code, pc, im) && StoreMatch(c.p, m, im) && WfRest(c.p, m.frame.fn, rest, term)
    ensures pc + 2 <= |code| && code[pc] == Load(n, NilRef) && code[pc + 1] == StoreTo(Tmp(n), RefOf(lhs))
    ensures code[pc + 2..] == Lowered(c.p, m.frame.fn, rest, Some(term), n + 1)
    ensures Writable(c.p, m.frame.fn, lhs, NilTag)
  {
    hide IrRun, StoreMatch, Lowered, WfRest, TagOf, NamesMainResult, RefOf;
    Window(code, pc, LowerInsn(c.p, m.frame.fn, ConstLoad(lhs, NilConst), n));
  }

  // The nil result of main is dropped.
  lemma SimulateNil(c: Setting, m: Store, lhs: Operand,
                    rest: seq<Insn>, term: Terminator, code: seq<Instr>, pc: nat, im: IrStore, n: nat)
    requires Poised(c, m, ConstLoad(lhs, NilConst), rest, term, code, pc, im, n)
    ensures Reaches(c, if NamesMainResult(m.frame.fn, lhs) then 0 else 2,
                    ExecInsn(c.p, c.env.bir, m, ConstLoad(lhs, NilConst), rest, term))
  {
    hide IrRun, StoreMatch, Lowered, WfRest, TagOf, NamesMainResult, RefOf, Reaches;
    var m' := Write(m, lhs, NilV);
    if NamesMainResult(m.frame.fn, lhs) {
      HiddenWrite(c.p, m, im, lhs, NilV);
      ReachesRest(c, 0, m', rest, term, code, pc, im, n);
    } else {
      NilCode(c, m, lhs, rest, term, code, pc, im, n);
      hide Poised, Writable, IrStep;
      var im1 := LoadCell(c, 0, m, code, pc, im, n, NilRef, Null);
      var im2 := StoreStep(c, 1, m, code, pc + 1, im1, Tmp(n), lhs, NilTag, NilV);
      ReachesRest(c, 2, m', rest, term, code, pc + 2, im2, n + 1);
    }
  }
}

// The code the generator emits for the four conversion functions, instruction by
// instruction, and that running it computes the functions of TaggedValues.
module ConversionCode {
  import opened Words
  import opened TaggedValues

  // ----- The instructions these functions use -----

  datatype Value = I64(n: Int64) | I8(c: Byte) | I1(b: bool) | Ptr(w: Word)

  datatype Opd = Reg(i: nat) | Const(v: Value)

  datatype Predicate = EQ | NE | SGE

  // A cell is an alloca. LoadAt and StoreAt go through a pointer to an i64. The
  // left shift has no signed wrap.
  datatype Instr =
    | Load(dst: nat, cell: nat)
    | Store(v: Opd, cell: nat)
    | LoadAt(dst: nat, address: Opd)
    | StoreAt(v: Opd, address: Opd)
    | ICmp(dst: nat, pred: Predicate, a: Opd, b: Opd)
    | ShlOne(dst: nat, a: Opd)
    | AShrOne(dst: nat, a: Opd)
    | OrWith(dst: nat, a: Opd, b: Opd)
    | AndWith(dst: nat, a: Opd, b: Opd)
    | AddTo(dst: nat, a: Opd, b: Opd)
    | IntToPtr(dst: nat, a: Opd)
    | PtrToInt(dst: nat, a: Opd)
    | PtrToByte(dst: nat, a: Opd)
    | ByteOffset(dst: nat, a: Opd, offset: nat)
    | Malloc(dst: nat, size: nat)

  datatype Terminator = Br(l: nat) | CondBr(c: Opd, onTrue: nat, onFalse: nat) | Ret(v: Opd) | CallAbort

  datatype Code = Then(i: Instr, rest: Code) | End(t: Terminator)

  // ----- Running them -----

  datatype Memory = Memory(regs: map<nat, Value>, cells: map<nat, Value>, heap: Heap)

  datatype Step = Next(m: Memory) | OutOfMemory | Undefined

  datatype Result = Returns(v: Value, heap: Heap) | Aborts | Exhausted | Wrong

  function Eval(m: Memory, o: Opd): Value {
    match o
    case Reg(i) => if i in m.regs then m.regs[i] else I1(false)
    case Const(v) => v
  }

  function Set(m: Memory, dst: nat, v: Value): Step {
    Next(m.(regs := m.regs[dst := v]))
  }

  function Compare(pred: Predicate, x: Value, y: Value): bool {
    match pred
    case EQ => x == y
    case NE => x != y
    case SGE => x.I64? && y.I64? && x.n >= y.n
  }

  // One instruction; p is what malloc returns.
  function Do(i: Instr, m: Memory, p: int): Step {
    match i
    case Load(dst, cell) => if cell in m.cells then Set(m, dst, m.cells[cell]) else Undefined
    case Store(v, cell) => Next(m.(cells := m.cells[cell := Eval(m, v)]))
    case LoadAt(dst, o) =>
      var a := Eval(m, o);
      if a.Ptr? && a.w in m.heap then Set(m, dst, I64(m.heap[a.w])) else Undefined
    case StoreAt(o, at) =>
      var v, a := Eval(m, o), Eval(m, at);
      if v.I64? && a.Ptr? then Next(m.(heap := m.heap[a.w := v.n])) else Undefined
    case ICmp(dst, pred, a, b) => Set(m, dst, I1(Compare(pred, Eval(m, a), Eval(m, b))))
    case ShlOne(dst, o) =>
      var a := Eval(m, o);
      if a.I64? && -TWO_63 <= 2 * a.n < TWO_63 then Set(m, dst, I64(Shl1(a.n))) else Undefined
    case AShrOne(dst, o) => (var a := Eval(m, o); if a.I64? then Set(m, dst, I64(AShr1(a.n))) else Undefined)
    case OrWith(dst, o, q) =>
      var a, b := Eval(m, o), Eval(m, q);
      if a.I64? && b.I64? then Set(m, dst, I64(Or(a.n, b.n))) else Undefined
    case AndWith(dst, o, q) =>
      var a, b := Eval(m, o), Eval(m, q);
      if a.I64? && b.I64? then Set(m, dst, I64(And(a.n, b.n))) else Undefined
    case AddTo(dst, o, q) =>
      var a, b := Eval(m, o), Eval(m, q);
      if a.I64? && b.I64? then Set(m, dst, I64(Wrap(a.n + b.n))) else Undefined
    case IntToPtr(dst, o) =>
      var a := Eval(m, o);
      if a.I64? then Set(m, dst, Ptr(Unsigned(a.n))) else if a.I8? then Set(m, dst, Ptr(a.c)) else Undefined
    case PtrToInt(dst, o) => (var a := Eval(m, o); if a.Ptr? then Set(m, dst, I64(Signed(a.w))) else Undefined)
    case PtrToByte(dst, o) => (var a := Eval(m, o); if a.Ptr? then Set(m, dst, I8(a.w % 256)) else Undefined)
    case ByteOffset(dst, o, k) =>
      var a := Eval(m, o);
      if a.Ptr? && a.w + k < TWO_64 then Set(m, dst, Ptr(a.w + k)) else Undefined
    case Malloc(dst, size) => if size == BOX_SIZE && FreeBox(m.heap, p) then Set(m, dst, Ptr(p)) else OutOfMemory
  }

  // From an instruction on; blocks branch to later blocks only.
  function Run(blocks: seq<Code>, at: nat, code: Code, m: Memory, p: int): Result
    decreases |blocks| - at, code
  {
    match code
    case Then(i, rest) =>
      (match Do(i, m, p)
       case Next(m') => Run(blocks, at, rest, m', p)
       case OutOfMemory => Exhausted
       case Undefined => Wrong)
    case End(Br(l)) => if at < l < |blocks| then Run(blocks, l, blocks[l], m, p) else Wrong
    case End(CondBr(o, t, e)) =>
      var c := Eval(m, o);
      var l := if c.I1? && c.b then t else e;
      if c.I1? && at < l < |blocks| then Run(blocks, l, blocks[l], m, p) else Wrong
    case End(Ret(o)) => Returns(Eval(m, o), m.heap)
    case End(CallAbort) => Aborts
  }

  // A call with one argument, in register 0.
  function Call(blocks: seq<Code>, arg: Value, heap: Heap, p: int): Result
    requires blocks != []
  {
    Run(blocks, 0, blocks[0], Memory(map[0 := arg], map[], heap), p)
  }

  lemma OneStep(blocks: seq<Code>, at: nat, i: Instr, rest: Code, m: Memory, m': Memory, p: int)
    requires Do(i, m, p) == Next(m')
    ensures Run(blocks, at, Then(i, rest), m, p) == Run(blocks, at, rest, m', p)
  {
  }

  // ----- The four functions -----

  const INT_TO_ANY: seq<Code> := [
    // entry
    Then(Store(Reg(0), 2), Then(Load(1, 2), Then(ICmp(2, SGE, Const(I64(0x3FFF_FFFF_FFFF_FFFF)), Reg(1)),
    End(CondBr(Reg(2), 1, 3))))),
    // lhs.true
    Then(ICmp(3, SGE, Reg(1), Const(I64(-0x4000_0000_0000_0000))),
    End(CondBr(Reg(3), 2, 3))),
    // if.then
    Then(ShlOne(4, Reg(1)), Then(OrWith(5, Reg(4), Const(I64(1))), Then(IntToPtr(6, Reg(5)), Then(Store(Reg(6), 1),
    End(Br(4)))))),
    // if.else
    Then(Malloc(7, 9), Then(Store(Reg(7), 3), Then(Load(8, 3), Then(ByteOffset(9, Reg(8), 1), Then(Store(Reg(9), 4),
    Then(Load(10, 2), Then(Load(11, 4), Then(StoreAt(Reg(10), Reg(11)), Then(Load(12, 3), Then(Store(Reg(12), 1),
    End(Br(4)))))))))))),
    // return
    Then(Load(13, 1),
    End(Ret(Reg(13))))
  ]

  const ANY_TO_INT: seq<Code> := [
    // entry
    Then(Store(Reg(0), 2), Then(Load(1, 2), Then(PtrToInt(2, Reg(1)), Then(AndWith(3, Reg(2), Const(I64(1))),
    Then(ICmp(4, NE, Reg(3), Const(I64(0))),
    End(CondBr(Reg(4), 1, 2))))))),
    // if.then
    Then(AShrOne(5, Reg(2)), Then(Store(Reg(5), 1),
    End(Br(5)))),
    // if.else
    Then(AndWith(6, Reg(2), Const(I64(3))), Then(ICmp(7, EQ, Reg(6), Const(I64(0))),
    End(CondBr(Reg(7), 3, 4)))),
    // if.then2
    Then(AddTo(8, Reg(2), Const(I64(1))), Then(IntToPtr(9, Reg(8)), Then(Store(Reg(9), 3), Then(Load(10, 3),
    Then(LoadAt(11, Reg(10)), Then(Store(Reg(11), 1),
    End(Br(5)))))))),
    // if.else2
    End(CallAbort),
    // return
    Then(Load(12, 1),
    End(Ret(Reg(12))))
  ]

  const BOOL_TO_ANY: seq<Code> := [
    // entry
    Then(ICmp(1, EQ, Reg(0), Const(I1(true))),
    End(CondBr(Reg(1), 1, 2))),
    // then
    Then(IntToPtr(2, Const(I8(14))),
    End(Ret(Reg(2)))),
    // else
    Then(IntToPtr(3, Const(I8(6))),
    End(Ret(Reg(3))))
  ]

  const ANY_TO_BOOL: seq<Code> := [
    // entry
    Then(PtrToByte(1, Reg(0)), Then(ICmp(2, EQ, Reg(1), Const(I8(14))),
    End(CondBr(Reg(2), 1, 2)))),
    // then
    End(Ret(Const(I1(true)))),
    // else
    End(Ret(Const(I1(false))))
  ]

  // ----- What they compute -----

  lemma BoolToAnyComputes(b: bool, heap: Heap, p: int)
    ensures Call(BOOL_TO_ANY, I1(b), heap, p) == Returns(Ptr(BoolToAny(b)), heap)
  {
  }

  lemma AnyToBoolComputes(w: Word, heap: Heap, p: int)
    ensures Call(ANY_TO_BOOL, Ptr(w), heap, p) == Returns(I1(AnyToBool(w)), heap)
  {
  }

  // From one branch to the next, a straight line of code does its instructions.
  function Straight(code: Code, m: Memory, p: int): Step {
    match code
    case Then(i, rest) =>
      (match Do(i, m, p)
       case Next(m') => Straight(rest, m', p)
       case s => s)
    case End(_) => Next(m)
  }

  function Last(code: Code): Terminator {
    match code
    case Then(_, rest) => Last(rest)
    case End(t) => t
  }

  lemma {:induction false} RunsStraight(blocks: seq<Code>, at: nat, code: Code, m: Memory, p: int)
    ensures Run(blocks, at, code, m, p) ==
      match Straight(code, m, p)
      case Next(m') => Run(blocks, at, End(Last(code)), m', p)
      case OutOfMemory => Exhausted
      case Undefined => Wrong
    decreases code
  {
    match code
    case Then(i, rest) =>
      if Do(i, m, p).Next? {
        RunsStraight(blocks, at, rest, Do(i, m, p).m, p);
      }
    case End(_) =>
  }

  lemma First(code: Code, m: Memory, m': Memory, p: int)
    requires code.Then? && Do(code.i, m, p) == Next(m')
    ensures Straight(code, m, p) == Straight(code.rest, m', p)
  {
  }

  // Two instructions.
  lemma Two(code: Code, m: Memory, m1: Memory, m2: Memory, p: int)
    requires code.Then? && code.rest.Then?
    requires Do(code.i, m, p) == Next(m1) && Do(code.rest.i, m1, p) == Next(m2)
    ensures Straight(code, m, p) == Straight(code.rest.rest, m2, p)
  {
    First(code, m, m1, p);
    First(code.rest, m1, m2, p);
  }

  function Reg1(m: Memory, i: nat, v: Value): Memory {
    m.(regs := m.regs[i := v])
  }

  function Cell(m: Memory, i: nat, v: Value): Memory {
    m.(cells := m.cells[i := v])
  }

  // The box is made.
  lemma BoxMade(m: Memory, p: int) returns (m': Memory)
    requires FreeBox(m.heap, p)
    ensures var rest := INT_TO_ANY[3].rest.rest.rest.rest.rest;
      Straight(INT_TO_ANY[3], m, p) == Straight(rest, m', p)
    ensures m'.heap == m.heap && 3 in m'.cells && m'.cells[3] == Ptr(p) && 4 in m'.cells && m'.cells[4] == Ptr(p + 1)
    ensures 2 in m.cells ==> 2 in m'.cells && m'.cells[2] == m.cells[2]
  {
    hide Straight;
    var c := INT_TO_ANY[3];
    var m1 := Reg1(m, 7, Ptr(p));
    var m2 := Cell(m1, 3, Ptr(p));
    Two(c, m, m1, m2, p);
    var m3 := Reg1(m2, 8, Ptr(p));
    var m4 := Reg1(m3, 9, Ptr(p + 1));
    Two(c.rest.rest, m2, m3, m4, p);
    m' := Cell(m4, 4, Ptr(p + 1));
    First(c.rest.rest.rest.rest, m4, m', p);
  }

  // And filled.
  lemma BoxFilled(m: Memory, v: Int64, p: int)
    requires 2 in m.cells && m.cells[2] == I64(v)
    requires 0 < p < TWO_64 - 1 && 3 in m.cells && m.cells[3] == Ptr(p) && 4 in m.cells && m.cells[4] == Ptr(p + 1)
    ensures var r := Straight(INT_TO_ANY[3].rest.rest.rest.rest.rest, m, p);
      r.Next? && 1 in r.m.cells && r.m.cells[1] == Ptr(p) && r.m.heap == m.heap[p + 1 := v]
  {
    hide Straight;
    var c := INT_TO_ANY[3].rest.rest.rest.rest.rest;
    var m1 := Reg1(m, 10, I64(v));
    var m2 := Reg1(m1, 11, Ptr(p + 1));
    Two(c, m, m1, m2, p);
    var m3 := m2.(heap := m.heap[p + 1 := v]);
    var m4 := Reg1(m3, 12, Ptr(p));
    Two(c.rest.rest, m2, m3, m4, p);
    var m5 := Cell(m4, 1, Ptr(p));
    First(c.rest.rest.rest.rest, m4, m5, p);
    StraightEnds(m5, 4, p);
  }

  lemma BoxRuns(m: Memory, v: Int64, p: int)
    requires FreeBox(m.heap, p) && 2 in m.cells && m.cells[2] == I64(v)
    ensures var r := Straight(INT_TO_ANY[3], m, p);
      r.Next? && 1 in r.m.cells && r.m.cells[1] == Ptr(p) && r.m.heap == m.heap[p + 1 := v]
  {
    hide Straight;
    var m' := BoxMade(m, p);
    BoxFilled(m', v, p);
  }

  lemma StraightEnds(m: Memory, l: nat, p: int)
    ensures Straight(End(Br(l)), m, p) == Next(m)
  {
  }

  // The immediate is made.
  lemma ImmediateRuns(m: Memory, v: Int64, p: int)
    requires 1 in m.regs && m.regs[1] == I64(v) && MIN_IMMEDIATE <= v <= MAX_IMMEDIATE
    ensures var r := Straight(INT_TO_ANY[2], m, p);
      r.Next? && 1 in r.m.cells && r.m.cells[1] == Ptr(Unsigned(Or(Shl1(v), 1))) && r.m.heap == m.heap
  {
    hide Straight;
    var c := INT_TO_ANY[2];
    var m1 := Reg1(m, 4, I64(Shl1(v)));
    var m2 := Reg1(m1, 5, I64(Or(Shl1(v), 1)));
    Two(c, m, m1, m2, p);
    var m3 := Reg1(m2, 6, Ptr(Unsigned(Or(Shl1(v), 1))));
    var m4 := Cell(m3, 1, Ptr(Unsigned(Or(Shl1(v), 1))));
    Two(c.rest.rest, m2, m3, m4, p);
    StraightEnds(m4, 4, p);
  }

  // The block of the return loads the result cell.
  lemma ReturnRuns(blocks: seq<Code>, at: nat, dst: nat, m: Memory, w: Value, p: int)
    requires at < |blocks| && blocks[at] == Then(Load(dst, 1), End(Ret(Reg(dst)))) && 1 in m.cells && m.cells[1] == w
    ensures Run(blocks, at, blocks[at], m, p) == Returns(w, m.heap)
  {
  }

  // After the two comparisons of int_to_any: the block that goes on, and where.
  lemma ComparisonsRun(v: Int64, heap: Heap, p: int) returns (m: Memory)
    ensures Call(INT_TO_ANY, I64(v), heap, p)
      == var l := if MIN_IMMEDIATE <= v <= MAX_IMMEDIATE then 2 else 3; Run(INT_TO_ANY, l, INT_TO_ANY[l], m, p)
    ensures m.heap == heap && 1 in m.regs && m.regs[1] == I64(v) && 2 in m.cells && m.cells[2] == I64(v)
  {
    var m0 := Memory(map[0 := I64(v)], map[], heap);
    var m1 := Cell(m0, 2, I64(v));
    var m2 := Reg1(m1, 1, I64(v));
    m := Reg1(m2, 2, I1(MAX_IMMEDIATE >= v));
    var c := INT_TO_ANY[0];
    OneStep(INT_TO_ANY, 0, c.i, c.rest, m0, m1, p);
    OneStep(INT_TO_ANY, 0, c.rest.i, c.rest.rest, m1, m2, p);
    OneStep(INT_TO_ANY, 0, c.rest.rest.i, c.rest.rest.rest, m2, m, p);
    if MAX_IMMEDIATE >= v {
      var c1 := INT_TO_ANY[1];
      assert Call(INT_TO_ANY, I64(v), heap, p) == Run(INT_TO_ANY, 1, c1, m, p);
      var m4 := Reg1(m, 3, I1(v >= MIN_IMMEDIATE));
      OneStep(INT_TO_ANY, 1, c1.i, c1.rest, m, m4, p);
      m := m4;
    }
  }

  // Running the emitted int_to_any is IntToAny; its shift never wraps.
  lemma IntToAnyComputes(v: Int64, heap: Heap, p: int)
    ensures Call(INT_TO_ANY, I64(v), heap, p) ==
      match IntToAny(v, heap, p)
      case Word(w, heap') => Returns(Ptr(w), heap')
      case NoMemory => Exhausted
  {
    hide Call, Straight;
    var m := ComparisonsRun(v, heap, p);
    if MIN_IMMEDIATE <= v <= MAX_IMMEDIATE {
      ImmediateRuns(m, v, p);
      RunsStraight(INT_TO_ANY, 2, INT_TO_ANY[2], m, p);
      ReturnRuns(INT_TO_ANY, 4, 13, Straight(INT_TO_ANY[2], m, p).m, Ptr(Unsigned(Or(Shl1(v), 1))), p);
    } else if FreeBox(heap, p) {
      BoxRuns(m, v, p);
      RunsStraight(INT_TO_ANY, 3, INT_TO_ANY[3], m, p);
      ReturnRuns(INT_TO_ANY, 4, 13, Straight(INT_TO_ANY[3], m, p).m, Ptr(p), p);
    }
  }

  lemma BranchTaken(blocks: seq<Code>, at: nat, c: Opd, onTrue: nat, onFalse: nat, b: bool, m: Memory, p: int)
    requires Eval(m, c) == I1(b) && at < (if b then onTrue else onFalse) < |blocks|
    ensures Run(blocks, at, End(CondBr(c, onTrue, onFalse)), m, p)
      == var l := if b then onTrue else onFalse; Run(blocks, l, blocks[l], m, p)
  {
  }

  // The first test of any_to_int, on the lowest bit.
  lemma LowestBitTested(w: Word, heap: Heap, p: int) returns (m: Memory)
    ensures Call(ANY_TO_INT, Ptr(w), heap, p)
      == var l := if And(Signed(w), 1) != 0 then 1 else 2; Run(ANY_TO_INT, l, ANY_TO_INT[l], m, p)
    ensures m.heap == heap && 2 in m.regs && m.regs[2] == I64(Signed(w))
  {
    hide And, Signed, Run;
    var i := Signed(w);
    var m0 := Memory(map[0 := Ptr(w)], map[], heap);
    var m1 := Cell(m0, 2, Ptr(w));
    var m2 := Reg1(m1, 1, Ptr(w));
    var c := ANY_TO_INT[0];
    OneStep(ANY_TO_INT, 0, c.i, c.rest, m0, m1, p);
    OneStep(ANY_TO_INT, 0, c.rest.i, c.rest.rest, m1, m2, p);
    m := LowestBitMasked(m2, i, p);
  }

  lemma LowestBitMasked(m: Memory, i: Int64, p: int) returns (m': Memory)
    requires 1 in m.regs && m.regs[1].Ptr? && Signed(m.regs[1].w) == i
    ensures Run(ANY_TO_INT, 0, ANY_TO_INT[0].rest.rest, m, p)
      == var l := if And(i, 1) != 0 then 1 else 2; Run(ANY_TO_INT, l, ANY_TO_INT[l], m', p)
    ensures m'.heap == m.heap && 2 in m'.regs && m'.regs[2] == I64(i)
  {
    hide And, Signed, Run;
    var c := ANY_TO_INT[0].rest.rest;
    var m1 := Reg1(m, 2, I64(i));
    var m2 := Reg1(m1, 3, I64(And(i, 1)));
    m' := Reg1(m2, 4, I1(And(i, 1) != 0));
    OneStep(ANY_TO_INT, 0, c.i, c.rest, m, m1, p);
    OneStep(ANY_TO_INT, 0, c.rest.i, c.rest.rest, m1, m2, p);
    OneStep(ANY_TO_INT, 0, c.rest.rest.i, c.rest.rest.rest, m2, m', p);
    BranchTaken(ANY_TO_INT, 0, Reg(4), 1, 2, And(i, 1) != 0, m', p);
  }

  // The second, on the two lowest.
  lemma TwoBitsTested(m: Memory, i: Int64, p: int) returns (m': Memory)
    requires 2 in m.regs && m.regs[2] == I64(i)
    ensures Run(ANY_TO_INT, 2, ANY_TO_INT[2], m, p)
      == var l := if And(i, 3) == 0 then 3 else 4; Run(ANY_TO_INT, l, ANY_TO_INT[l], m', p)
    ensures m'.heap == m.heap && 2 in m'.regs && m'.regs[2] == I64(i)
  {
    hide And;
    var c := ANY_TO_INT[2];
    var m1 := Reg1(m, 6, I64(And(i, 3)));
    m' := Reg1(m1, 7, I1(And(i, 3) == 0));
    OneStep(ANY_TO_INT, 2, c.i, c.rest, m, m1, p);
    OneStep(ANY_TO_INT, 2, c.rest.i, c.rest.rest, m1, m', p);
  }

  lemma ShiftRuns(m: Memory, n: Int64, p: int)
    requires 2 in m.regs && m.regs[2] == I64(n)
    ensures Run(ANY_TO_INT, 1, ANY_TO_INT[1], m, p) == Returns(I64(AShr1(n)), m.heap)
  {
    hide AShr1;
    var c := ANY_TO_INT[1];
    var m1 := Reg1(m, 5, I64(AShr1(n)));
    var m2 := Cell(m1, 1, I64(AShr1(n)));
    OneStep(ANY_TO_INT, 1, c.i, c.rest, m, m1, p);
    OneStep(ANY_TO_INT, 1, c.rest.i, c.rest.rest, m1, m2, p);
    ReturnRuns(ANY_TO_INT, 5, 12, m2, I64(AShr1(n)), p);
  }

  lemma NextAddress(w: Word)
    requires w % 4 == 0
    ensures w + 1 < TWO_64 && Unsigned(Wrap(Signed(w) + 1)) == w + 1
  {
  }

  lemma UnboxRuns(m: Memory, w: Word, p: int)
    requires 2 in m.regs && m.regs[2] == I64(Signed(w)) && w % 4 == 0
    ensures Run(ANY_TO_INT, 3, ANY_TO_INT[3], m, p)
      == if w + 1 in m.heap then Returns(I64(m.heap[w + 1]), m.heap) else Wrong
  {
    NextAddress(w);
    hide Signed, Unsigned, Wrap;
    var c := ANY_TO_INT[3];
    var m1 := Reg1(m, 8, I64(Wrap(Signed(w) + 1)));
    var m2 := Reg1(m1, 9, Ptr(w + 1));
    OneStep(ANY_TO_INT, 3, c.i, c.rest, m, m1, p);
    OneStep(ANY_TO_INT, 3, c.rest.i, c.rest.rest, m1, m2, p);
    var m3 := Cell(m2, 3, Ptr(w + 1));
    var m4 := Reg1(m3, 10, Ptr(w + 1));
    var c2 := c.rest.rest;
    OneStep(ANY_TO_INT, 3, c2.i, c2.rest, m2, m3, p);
    OneStep(ANY_TO_INT, 3, c2.rest.i, c2.rest.rest, m3, m4, p);
    if w + 1 in m.heap {
      var v := I64(m.heap[w + 1]);
      var m5 := Reg1(m4, 11, v);
      var m6 := Cell(m5, 1, v);
      var c4 := c2.rest.rest;
      OneStep(ANY_TO_INT, 3, c4.i, c4.rest, m4, m5, p);
      OneStep(ANY_TO_INT, 3, c4.rest.i, c4.rest.rest, m5, m6, p);
      ReturnRuns(ANY_TO_INT, 5, 12, m6, v, p);
    }
  }

  // Running the emitted any_to_int is AnyToInt, its abort included.
  lemma AnyToIntComputes(w: Word, heap: Heap, p: int)
    ensures Call(ANY_TO_INT, Ptr(w), heap, p) ==
      match AnyToInt(w, heap)
      case Int(n) => Returns(I64(n), heap)
      case Abort => Aborts
      case Unmapped => Wrong
  {
    hide Call;
    var m := LowestBitTested(w, heap, p);
    LowBits(w);
    if And(Signed(w), 1) != 0 {
      ShiftRuns(m, Signed(w), p);
    } else {
      var m' := TwoBitsTested(m, Signed(w), p);
      if And(Signed(w), 3) == 0 {
        UnboxRuns(m', w, p);
      }
    }
  }
}

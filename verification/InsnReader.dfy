// Operands, instructions and basic blocks of a BIR file: how they are read, their
// format, and that reading inverts it. Reading drops debug positions and every
// other part of the format that the compiler does not use.
module InsnReader {
  import opened Options
  import opened Words
  import opened Streams
  import opened ConstantPools

  // ----- What the reader builds -----

  datatype Operand = Operand(name: seq<Byte>, kind: Byte)

  datatype Constant =
    | IntConst(n: Int64) | ByteConst(c: Byte) | BooleanConst(b: bool) | FloatConst(f: Word) | StringConst(s: seq<Byte>)
    | NilConst

  datatype MapField = SpreadField(expr: Operand) | KeyValue(key: Operand, value: Operand)

  datatype Insn =
    | Structure(lhs: Operand, fields: seq<MapField>)
    | ConstLoad(lhs: Operand, value: Constant)
    | Unary(kind: Byte, lhs: Operand, rhs: Operand)
    | Binary(kind: Byte, lhs: Operand, rhs1: Operand, rhs2: Operand)
    | Move(lhs: Operand, rhs: Operand)
    | TypeCast(lhs: Operand, rhs: Operand)
    | TypeTest(lhs: Operand)
    | NewArray(lhs: Operand, size: Operand)
    | ArrayStore(lhs: Operand, key: Operand, rhs: Operand)
    | ArrayLoad(lhs: Operand, key: Operand, rhs: Operand)
    | MapStore(lhs: Operand, key: Operand, rhs: Operand)
    | MapLoad(lhs: Operand, key: Operand, rhs: Operand)

  datatype Terminator =
    | Goto(next: seq<Byte>)
    | CondBranch(cond: Operand, onTrue: seq<Byte>, onFalse: seq<Byte>)
    | Call(callee: seq<Byte>, args: seq<Operand>, lhs: Operand, next: seq<Byte>)
    | Return

  // What one instruction of the file does to the block being read.
  datatype Effect = Adds(i: Insn) | Ends(t: Terminator) | Nothing

  datatype Code = Code(insns: seq<Insn>, terminator: Option<Terminator>)

  datatype BasicBlock = BasicBlock(id: seq<Byte>, code: Code)

  function Extended(c: Code, e: Effect): Code {
    match e
    case Adds(i) => Code(c.insns + [i], c.terminator)
    case Ends(t) => Code(c.insns, Some(t))
    case Nothing => c
  }

  const NOT_A_KIND: Byte := 0
  const LOCAL_VAR_KIND: Byte := 1
  const ARG_VAR_KIND: Byte := 2
  const GLOBAL_VAR_KIND: Byte := 5

  const GOTO: Byte := 1
  const CALL: Byte := 2
  const CONDITIONAL_BRANCH: Byte := 3
  const RETURN: Byte := 4
  const MOVE: Byte := 20
  const CONST_LOAD: Byte := 21
  const NEW_STRUCTURE: Byte := 22
  const MAP_STORE: Byte := 23
  const MAP_LOAD: Byte := 24
  const NEW_ARRAY: Byte := 25
  const ARRAY_STORE: Byte := 26
  const ARRAY_LOAD: Byte := 27
  const TYPE_CAST: Byte := 29
  const TYPE_TEST: Byte := 31
  const NEW_TYPEDESC: Byte := 52
  const BINARY_ADD: Byte := 61
  const BINARY_LESS_EQUAL: Byte := 71
  const UNARY_NOT: Byte := 81
  const UNARY_NEG: Byte := 82
  const BINARY_BITWISE_XOR: Byte := 85

  predicate IsBinary(kind: Byte) {
    BINARY_ADD <= kind <= BINARY_LESS_EQUAL || kind == BINARY_BITWISE_XOR
  }

  predicate IsUnary(kind: Byte) {
    kind == UNARY_NOT || kind == UNARY_NEG
  }

  // How the value of a constant load is written, by the type tag of its type.
  datatype ConstClass = IntClass | ByteClass | BooleanClass | FloatClass | StringClass | NilClass | NoClass

  function ClassOf(tag: Byte): ConstClass {
    if tag == TYPE_TAG_INT || tag == TYPE_TAG_DECIMAL || TYPE_TAG_SIGNED32_INT <= tag <= TYPE_TAG_UNSIGNED8_INT then
      IntClass
    else if tag == TYPE_TAG_BYTE then ByteClass
    else if tag == TYPE_TAG_BOOLEAN then BooleanClass
    else if tag == TYPE_TAG_FLOAT then FloatClass
    else if tag == TYPE_TAG_STRING || tag == TYPE_TAG_CHAR_STRING then StringClass
    else if tag == TYPE_TAG_NIL then NilClass
    else NoClass
  }

  type Pool = seq<Entry>

  // ----- Reading, as a function of the stream -----

  function ParseOperand(pool: Pool, s: seq<Byte>, p: nat): Parsed<Operand> {
    var kind := U1(s, p + 1);
    var name := StringCp(pool, S4(s, p + 3));
    if name.None? then Aborts
    else if kind == GLOBAL_VAR_KIND then
      if TypeCp(pool, S4(s, p + 11)).None? then Aborts else Got(Operand(name.value, kind), p + 15)
    else Got(Operand(name.value, kind), p + 7)
  }

  function ParsePair(pool: Pool, s: seq<Byte>, p: nat): Parsed<(Operand, Operand)> {
    var (a, q) :- ParseOperand(pool, s, p);
    var (b, r) :- ParseOperand(pool, s, q);
    Got((a, b), r)
  }

  function ParseTriple(pool: Pool, s: seq<Byte>, p: nat): Parsed<(Operand, Operand, Operand)> {
    var (a, q) :- ParseOperand(pool, s, p);
    var (bc, r) :- ParsePair(pool, s, q);
    Got((a, bc.0, bc.1), r)
  }

  function ParseOperands(pool: Pool, s: seq<Byte>, p: nat, k: nat): Parsed<seq<Operand>> {
    if k == 0 then Got([], p)
    else
      var (before, q) :- ParseOperands(pool, s, p, k - 1);
      var (o, r) :- ParseOperand(pool, s, q);
      Got(before + [o], r)
  }

  // Any kind but that of a spread stands for a key and a value.
  function ParseField(pool: Pool, s: seq<Byte>, p: nat): Parsed<MapField> {
    if U1(s, p) == 0 then
      var (o, q) :- ParseOperand(pool, s, p + 1);
      Got(SpreadField(o), q)
    else
      var (kv, q) :- ParsePair(pool, s, p + 1);
      Got(KeyValue(kv.0, kv.1), q)
  }

  function ParseFields(pool: Pool, s: seq<Byte>, p: nat, k: nat): Parsed<seq<MapField>> {
    if k == 0 then Got([], p)
    else
      var (before, q) :- ParseFields(pool, s, p, k - 1);
      var (f, r) :- ParseField(pool, s, q);
      Got(before + [f], r)
  }

  function ParseStructure(pool: Pool, s: seq<Byte>, p: nat): Parsed<Insn> {
    var (ops, q) :- ParsePair(pool, s, p);
    if S4(s, q) < 0 then Aborts
    else
      var (fields, r) :- ParseFields(pool, s, q + 4, S4(s, q));
      Got(Structure(ops.1, fields), r)
  }

  function ParseConst(pool: Pool, tag: Byte, s: seq<Byte>, p: nat): Parsed<Constant> {
    match ClassOf(tag)
    case IntClass => (var v := IntCp(pool, S4(s, p)); if v.Some? then Got(IntConst(v.value), p + 4) else Aborts)
    case ByteClass => (var v := ByteCp(pool, S4(s, p)); if v.Some? then Got(ByteConst(v.value), p + 4) else Aborts)
    case BooleanClass => Got(BooleanConst(U1(s, p) != 0), p + 1)
    case FloatClass => (var v := FloatCp(pool, S4(s, p)); if v.Some? then Got(FloatConst(v.value), p + 4) else Aborts)
    case StringClass =>
      (var v := StringCp(pool, S4(s, p)); if v.Some? then Got(StringConst(v.value), p + 4) else Aborts)
    case NilClass => Got(NilConst, p)
    case NoClass => Aborts
  }

  function ParseConstLoad(pool: Pool, s: seq<Byte>, p: nat): Parsed<Insn> {
    var (lhs, q) :- ParseOperand(pool, s, p + 4);
    var tag := TypeTagCp(pool, S4(s, p));
    if tag.None? then Aborts
    else
      var (v, r) :- ParseConst(pool, tag.value, s, q);
      Got(ConstLoad(lhs, v), r)
  }

  function ParseCondBranch(pool: Pool, s: seq<Byte>, p: nat): Parsed<Terminator> {
    var (c, q) :- ParseOperand(pool, s, p);
    var t, f := StringCp(pool, S4(s, q)), StringCp(pool, S4(s, q + 4));
    if t.None? || f.None? then Aborts else Got(CondBranch(c, t.value, f.value), q + 8)
  }

  // A call without a result has an operand of no kind.
  function ParseResult(pool: Pool, s: seq<Byte>, p: nat): Parsed<Operand> {
    if U1(s, p) > 0 then ParseOperand(pool, s, p + 1) else Got(Operand([], NOT_A_KIND), p + 1)
  }

  function ParseCall(pool: Pool, s: seq<Byte>, p: nat): Parsed<Terminator> {
    var callee := StringCp(pool, S4(s, p + 5));
    if callee.None? || S4(s, p + 9) < 0 then Aborts
    else
      var (args, q) :- ParseOperands(pool, s, p + 13, S4(s, p + 9));
      var (lhs, r) :- ParseResult(pool, s, q);
      var next := StringCp(pool, S4(s, r));
      if next.None? then Aborts else Got(Call(callee.value, args, lhs, next.value), r + 4)
  }

  function ParseTypeCast(pool: Pool, s: seq<Byte>, p: nat): Parsed<Insn> {
    var (ops, q) :- ParsePair(pool, s, p);
    if TypeCp(pool, S4(s, q)).None? then Aborts else Got(TypeCast(ops.0, ops.1), q + 5)
  }

  function ParseTypeTest(pool: Pool, s: seq<Byte>, p: nat): Parsed<Insn> {
    if TypeCp(pool, S4(s, p)).None? then Aborts
    else
      var (ops, q) :- ParsePair(pool, s, p + 4);
      Got(TypeTest(ops.0), q)
  }

  function ParseNewArray(pool: Pool, s: seq<Byte>, p: nat): Parsed<Insn> {
    if TypeCp(pool, S4(s, p)).None? then Aborts
    else
      var (ops, q) :- ParsePair(pool, s, p + 4);
      var (initial, r) :- ParseOperands(pool, s, q + 4, Count(S4(s, q)));
      Got(NewArray(ops.0, ops.1), r)
  }

  function Adding(i: Parsed<Insn>): Parsed<Effect> {
    if i.Got? then Got(Adds(i.value), i.next) else Aborts
  }

  function Ending(t: Parsed<Terminator>): Parsed<Effect> {
    if t.Got? then Got(Ends(t.value), t.next) else Aborts
  }

  function ParseUnary(pool: Pool, kind: Byte, s: seq<Byte>, p: nat): Parsed<Insn> {
    var (ops, q) :- ParsePair(pool, s, p);
    Got(Unary(kind, ops.1, ops.0), q)
  }

  function ParseBinary(pool: Pool, kind: Byte, s: seq<Byte>, p: nat): Parsed<Insn> {
    var (ops, q) :- ParseTriple(pool, s, p);
    Got(Binary(kind, ops.2, ops.0, ops.1), q)
  }

  function ParseMove(pool: Pool, s: seq<Byte>, p: nat): Parsed<Insn> {
    var (ops, q) :- ParsePair(pool, s, p);
    Got(Move(ops.1, ops.0), q)
  }

  function ParseTypeDesc(pool: Pool, s: seq<Byte>, p: nat): Parsed<Effect> {
    var (_, q) :- ParseOperand(pool, s, p);
    Got(Nothing, q + 4)
  }

  // An instruction on an array or a mapping, a key and a value.
  function ParseAccess(pool: Pool, kind: Byte, s: seq<Byte>, p: nat): Parsed<Insn> {
    var (ops, q) :- ParseTriple(pool, s, if kind == ARRAY_LOAD || kind == MAP_LOAD then p + 2 else p);
    if kind == ARRAY_STORE then Got(ArrayStore(ops.0, ops.1, ops.2), q)
    else if kind == ARRAY_LOAD then Got(ArrayLoad(ops.0, ops.1, ops.2), q)
    else if kind == MAP_STORE then Got(MapStore(ops.0, ops.1, ops.2), q)
    else Got(MapLoad(ops.0, ops.1, ops.2), q)
  }

  predicate IsAccess(kind: Byte) {
    kind == ARRAY_STORE || kind == ARRAY_LOAD || kind == MAP_STORE || kind == MAP_LOAD
  }

  function ParseGoto(pool: Pool, s: seq<Byte>, p: nat): Parsed<Terminator> {
    var next := StringCp(pool, S4(s, p));
    if next.None? then Aborts else Got(Goto(next.value), p + 4)
  }

  function ParseByKind(pool: Pool, kind: Byte, s: seq<Byte>, p: nat): Parsed<Effect> {
    if kind == NEW_TYPEDESC then ParseTypeDesc(pool, s, p)
    else if kind == NEW_STRUCTURE then Adding(ParseStructure(pool, s, p))
    else if kind == CONST_LOAD then Adding(ParseConstLoad(pool, s, p))
    else if kind == GOTO then Ending(ParseGoto(pool, s, p))
    else if kind == RETURN then Got(Ends(Return), p)
    else if IsBinary(kind) then Adding(ParseBinary(pool, kind, s, p))
    else if IsUnary(kind) then Adding(ParseUnary(pool, kind, s, p))
    else if kind == CONDITIONAL_BRANCH then Ending(ParseCondBranch(pool, s, p))
    else if kind == MOVE then Adding(ParseMove(pool, s, p))
    else if kind == CALL then Ending(ParseCall(pool, s, p))
    else if kind == TYPE_CAST then Adding(ParseTypeCast(pool, s, p))
    else if kind == TYPE_TEST then Adding(ParseTypeTest(pool, s, p))
    else if kind == NEW_ARRAY then Adding(ParseNewArray(pool, s, p))
    else if IsAccess(kind) then Adding(ParseAccess(pool, kind, s, p))
    else Aborts
  }

  // Five numbers of debug position, the first of which names a source file.
  function ParseInsn(pool: Pool, s: seq<Byte>, p: nat): Parsed<Effect> {
    if StringCp(pool, S4(s, p)).None? then Aborts else ParseByKind(pool, U1(s, p + 20), s, p + 21)
  }

  function ParseInsns(pool: Pool, s: seq<Byte>, p: nat, k: nat): Parsed<Code> {
    if k == 0 then Got(Code([], None), p)
    else
      var (c, q) :- ParseInsns(pool, s, p, k - 1);
      var (e, r) :- ParseInsn(pool, s, q);
      Got(Extended(c, e), r)
  }

  function ParseBlock(pool: Pool, s: seq<Byte>, p: nat): Parsed<BasicBlock> {
    var id := StringCp(pool, S4(s, p));
    if id.None? || S4(s, p + 4) < 0 then Aborts
    else
      var (c, q) :- ParseInsns(pool, s, p + 8, S4(s, p + 4));
      Got(BasicBlock(id.value, c), q)
  }

  // ----- The readers -----

  // A reader's outcome is what the function of the stream says.
  predicate Agrees<T(==)>(r: Option<T>, pos: nat, parsed: Parsed<T>) {
    match parsed
    case Got(v, next) => r == Some(v) && pos == next
    case Aborts => r.None?
  }

  method ReadOperand(reader: BirFileReader, cp: ConstantPoolSet) returns (r: Option<Operand>)
    modifies reader
    ensures Agrees(r, reader.pos, ParseOperand(cp.poolEntries, reader.bytes, old(reader.pos)))
  {
    var ignored := reader.ReadU1();
    var kind := reader.ReadU1();
    var scope := reader.ReadU1();
    var varDclNameCpIndex := reader.ReadS4be();
    if kind == GLOBAL_VAR_KIND {
      var packageIndex := reader.ReadS4be();
      var typeCpIndex := reader.ReadS4be();
      if TypeCp(cp.poolEntries, typeCpIndex).None? {
        return None;
      }
    }
    var name := StringCp(cp.poolEntries, varDclNameCpIndex);
    return if name.Some? then Some(Operand(name.value, kind)) else None;
  }

  method ReadPair(reader: BirFileReader, cp: ConstantPoolSet) returns (r: Option<(Operand, Operand)>)
    modifies reader
    ensures Agrees(r, reader.pos, ParsePair(cp.poolEntries, reader.bytes, old(reader.pos)))
  {
    hide ParseOperand;
    var a := ReadOperand(reader, cp);
    if a.None? {
      return None;
    }
    var b := ReadOperand(reader, cp);
    return if b.Some? then Some((a.value, b.value)) else None;
  }

  method ReadTriple(reader: BirFileReader, cp: ConstantPoolSet) returns (r: Option<(Operand, Operand, Operand)>)
    modifies reader
    ensures Agrees(r, reader.pos, ParseTriple(cp.poolEntries, reader.bytes, old(reader.pos)))
  {
    hide ParseOperand, ParsePair;
    var a := ReadOperand(reader, cp);
    if a.None? {
      return None;
    }
    var bc := ReadPair(reader, cp);
    return if bc.Some? then Some((a.value, bc.value.0, bc.value.1)) else None;
  }

  lemma {:induction false} OperandsAbort(pool: Pool, s: seq<Byte>, p: nat, k: nat, n: nat)
    requires k <= n && ParseOperands(pool, s, p, k).Aborts?
    ensures ParseOperands(pool, s, p, n).Aborts?
    decreases n - k
  {
    if k < n {
      OperandsAbort(pool, s, p, k + 1, n);
    }
  }

  method ReadOperands(reader: BirFileReader, cp: ConstantPoolSet, count: Int32) returns (r: Option<seq<Operand>>)
    modifies reader
    ensures Agrees(r, reader.pos, ParseOperands(cp.poolEntries, reader.bytes, old(reader.pos), Count(count)))
  {
    hide ParseOperand;
    ghost var pool, start := cp.poolEntries, reader.pos;
    var ops: seq<Operand> := [];
    var i := 0;
    while i < count
      invariant 0 <= i <= Count(count)
      invariant ParseOperands(pool, reader.bytes, start, i) == Got(ops, reader.pos)
    {
      var op := ReadOperand(reader, cp);
      if op.None? {
        assert ParseOperands(pool, reader.bytes, start, i + 1).Aborts?;
        OperandsAbort(pool, reader.bytes, start, i + 1, count);
        return None;
      }
      ops := ops + [op.value];
      i := i + 1;
    }
    return Some(ops);
  }

  method ReadMapConstructor(reader: BirFileReader, cp: ConstantPoolSet) returns (r: Option<MapField>)
    modifies reader
    ensures Agrees(r, reader.pos, ParseField(cp.poolEntries, reader.bytes, old(reader.pos)))
  {
    hide ParseOperand, ParsePair;
    var kind := reader.ReadU1();
    if kind == 0 {
      var expr := ReadOperand(reader, cp);
      return if expr.Some? then Some(SpreadField(expr.value)) else None;
    }
    var kv := ReadPair(reader, cp);
    return if kv.Some? then Some(KeyValue(kv.value.0, kv.value.1)) else None;
  }

  lemma {:induction false} FieldsAbort(pool: Pool, s: seq<Byte>, p: nat, k: nat, n: nat)
    requires k <= n && ParseFields(pool, s, p, k).Aborts?
    ensures ParseFields(pool, s, p, n).Aborts?
    decreases n - k
  {
    if k < n {
      FieldsAbort(pool, s, p, k + 1, n);
    }
  }

  method ReadStructureInsn(reader: BirFileReader, cp: ConstantPoolSet) returns (r: Option<Insn>)
    modifies reader
    ensures Agrees(r, reader.pos, ParseStructure(cp.poolEntries, reader.bytes, old(reader.pos)))
  {
    hide ParsePair, ParseField;
    ghost var pool := cp.poolEntries;
    var ops := ReadPair(reader, cp);
    if ops.None? {
      return None;
    }
    var initValuesCount := reader.ReadS4be();
    if initValuesCount == 0 {
      return Some(Structure(ops.value.1, []));
    }
    if initValuesCount < 0 {
      return None;
    }
    ghost var start := reader.pos;
    var initValues: seq<MapField> := [];
    var i := 0;
    while i < initValuesCount
      invariant 0 <= i <= initValuesCount
      invariant ParseFields(pool, reader.bytes, start, i) == Got(initValues, reader.pos)
    {
      var field := ReadMapConstructor(reader, cp);
      if field.None? {
        assert ParseFields(pool, reader.bytes, start, i + 1).Aborts?;
        FieldsAbort(pool, reader.bytes, start, i + 1, initValuesCount);
        return None;
      }
      initValues := initValues + [field.value];
      i := i + 1;
    }
    return Some(Structure(ops.value.1, initValues));
  }

  method ReadConst(reader: BirFileReader, cp: ConstantPoolSet, tag: Byte) returns (r: Option<Constant>)
    modifies reader
    ensures Agrees(r, reader.pos, ParseConst(cp.poolEntries, tag, reader.bytes, old(reader.pos)))
  {
    match ClassOf(tag) {
      case IntClass =>
        var index := reader.ReadS4be();
        var v := IntCp(cp.poolEntries, index);
        return if v.Some? then Some(IntConst(v.value)) else None;
      case ByteClass =>
        var index := reader.ReadS4be();
        var v := ByteCp(cp.poolEntries, index);
        return if v.Some? then Some(ByteConst(v.value)) else None;
      case BooleanClass =>
        var v := reader.ReadU1();
        return Some(BooleanConst(v != 0));
      case FloatClass =>
        var index := reader.ReadS4be();
        var v := FloatCp(cp.poolEntries, index);
        return if v.Some? then Some(FloatConst(v.value)) else None;
      case StringClass =>
        var index := reader.ReadS4be();
        var v := StringCp(cp.poolEntries, index);
        return if v.Some? then Some(StringConst(v.value)) else None;
      case NilClass => return Some(NilConst);
      case NoClass => return None;
    }
  }

  method ReadConstLoadInsn(reader: BirFileReader, cp: ConstantPoolSet) returns (r: Option<Insn>)
    modifies reader
    ensures Agrees(r, reader.pos, ParseConstLoad(cp.poolEntries, reader.bytes, old(reader.pos)))
  {
    hide ParseOperand, ParseConst;
    var typeCpIndex := reader.ReadS4be();
    var lhs := ReadOperand(reader, cp);
    var tag := TypeTagCp(cp.poolEntries, typeCpIndex);
    if lhs.None? || tag.None? {
      return None;
    }
    var v := ReadConst(reader, cp, tag.value);
    return if v.Some? then Some(ConstLoad(lhs.value, v.value)) else None;
  }

  method ReadUnaryInsn(reader: BirFileReader, cp: ConstantPoolSet, kind: Byte) returns (r: Option<Insn>)
    modifies reader
    ensures Agrees(r, reader.pos, ParseUnary(cp.poolEntries, kind, reader.bytes, old(reader.pos)))
  {
    hide ParsePair;
    var ops := ReadPair(reader, cp);
    return if ops.Some? then Some(Unary(kind, ops.value.1, ops.value.0)) else None;
  }

  method ReadBinaryInsn(reader: BirFileReader, cp: ConstantPoolSet, kind: Byte) returns (r: Option<Insn>)
    modifies reader
    ensures Agrees(r, reader.pos, ParseBinary(cp.poolEntries, kind, reader.bytes, old(reader.pos)))
  {
    hide ParseTriple;
    var ops := ReadTriple(reader, cp);
    return if ops.Some? then Some(Binary(kind, ops.value.2, ops.value.0, ops.value.1)) else None;
  }

  method ReadCondBrInsn(reader: BirFileReader, cp: ConstantPoolSet) returns (r: Option<Terminator>)
    modifies reader
    ensures Agrees(r, reader.pos, ParseCondBranch(cp.poolEntries, reader.bytes, old(reader.pos)))
  {
    hide ParseOperand;
    var cond := ReadOperand(reader, cp);
    if cond.None? {
      return None;
    }
    var trueBbIdNameCpIndex := reader.ReadS4be();
    var falseBbIdNameCpIndex := reader.ReadS4be();
    var onTrue := StringCp(cp.poolEntries, trueBbIdNameCpIndex);
    var onFalse := StringCp(cp.poolEntries, falseBbIdNameCpIndex);
    return if onTrue.Some? && onFalse.Some? then Some(CondBranch(cond.value, onTrue.value, onFalse.value)) else None;
  }

  method ReadMoveInsn(reader: BirFileReader, cp: ConstantPoolSet) returns (r: Option<Insn>)
    modifies reader
    ensures Agrees(r, reader.pos, ParseMove(cp.poolEntries, reader.bytes, old(reader.pos)))
  {
    hide ParsePair;
    var ops := ReadPair(reader, cp);
    return if ops.Some? then Some(Move(ops.value.1, ops.value.0)) else None;
  }

  method ReadFuncCallInsn(reader: BirFileReader, cp: ConstantPoolSet) returns (r: Option<Terminator>)
    modifies reader
    ensures Agrees(r, reader.pos, ParseCall(cp.poolEntries, reader.bytes, old(reader.pos)))
  {
    hide ParseOperand, ParseOperands;
    var isVirtual := reader.ReadU1();
    var packageIndex := reader.ReadS4be();
    var callNameCpIndex := reader.ReadS4be();
    var callee := StringCp(cp.poolEntries, callNameCpIndex);
    var argumentsCount := reader.ReadS4be();
    if callee.None? || argumentsCount < 0 {
      return None;
    }
    var args := ReadOperands(reader, cp, argumentsCount);
    if args.None? {
      return None;
    }
    var hasLhsOperand := reader.ReadU1();
    var lhs := Some(Operand([], NOT_A_KIND));
    if hasLhsOperand > 0 {
      lhs := ReadOperand(reader, cp);
    }
    if lhs.None? {
      return None;
    }
    var thenBbIdNameCpIndex := reader.ReadS4be();
    var next := StringCp(cp.poolEntries, thenBbIdNameCpIndex);
    return if next.Some? then Some(Call(callee.value, args.value, lhs.value, next.value)) else None;
  }

  method ReadTypeCastInsn(reader: BirFileReader, cp: ConstantPoolSet) returns (r: Option<Insn>)
    modifies reader
    ensures Agrees(r, reader.pos, ParseTypeCast(cp.poolEntries, reader.bytes, old(reader.pos)))
  {
    hide ParsePair;
    var ops := ReadPair(reader, cp);
    if ops.None? {
      return None;
    }
    var typeCpIndex := reader.ReadS4be();
    if TypeCp(cp.poolEntries, typeCpIndex).None? {
      return None;
    }
    var isCheckTypes := reader.ReadU1();
    return Some(TypeCast(ops.value.0, ops.value.1));
  }

  method ReadTypeTestInsn(reader: BirFileReader, cp: ConstantPoolSet) returns (r: Option<Insn>)
    modifies reader
    ensures Agrees(r, reader.pos, ParseTypeTest(cp.poolEntries, reader.bytes, old(reader.pos)))
  {
    hide ParsePair;
    var typeCpIndex := reader.ReadS4be();
    if TypeCp(cp.poolEntries, typeCpIndex).None? {
      return None;
    }
    var ops := ReadPair(reader, cp);
    return if ops.Some? then Some(TypeTest(ops.value.0)) else None;
  }

  method ReadArrayInsn(reader: BirFileReader, cp: ConstantPoolSet) returns (r: Option<Insn>)
    modifies reader
    ensures Agrees(r, reader.pos, ParseNewArray(cp.poolEntries, reader.bytes, old(reader.pos)))
  {
    hide ParsePair, ParseOperands;
    var typeCpIndex := reader.ReadS4be();
    if TypeCp(cp.poolEntries, typeCpIndex).None? {
      return None;
    }
    var ops := ReadPair(reader, cp);
    if ops.None? {
      return None;
    }
    var initValuesCount := reader.ReadS4be();
    var initial := ReadOperands(reader, cp, initValuesCount);
    return if initial.Some? then Some(NewArray(ops.value.0, ops.value.1)) else None;
  }

  method ReadAccessInsn(reader: BirFileReader, cp: ConstantPoolSet, kind: Byte) returns (r: Option<Insn>)
    requires IsAccess(kind)
    modifies reader
    ensures Agrees(r, reader.pos, ParseAccess(cp.poolEntries, kind, reader.bytes, old(reader.pos)))
  {
    hide ParseTriple;
    if kind == ARRAY_LOAD || kind == MAP_LOAD {
      var optionalFieldAccess := reader.ReadU1();
      var fillingRead := reader.ReadU1();
    }
    var ops := ReadTriple(reader, cp);
    if ops.None? {
      return None;
    }
    var (lhs, key, rhs) := ops.value;
    if kind == ARRAY_STORE {
      return Some(ArrayStore(lhs, key, rhs));
    } else if kind == ARRAY_LOAD {
      return Some(ArrayLoad(lhs, key, rhs));
    } else if kind == MAP_STORE {
      return Some(MapStore(lhs, key, rhs));
    }
    return Some(MapLoad(lhs, key, rhs));
  }

  method ReadGoToInsn(reader: BirFileReader, cp: ConstantPoolSet) returns (r: Option<Terminator>)
    modifies reader
    ensures Agrees(r, reader.pos, ParseGoto(cp.poolEntries, reader.bytes, old(reader.pos)))
  {
    var nameId := reader.ReadS4be();
    var next := StringCp(cp.poolEntries, nameId);
    return if next.Some? then Some(Goto(next.value)) else None;
  }

  method ReadTypeDescInsn(reader: BirFileReader, cp: ConstantPoolSet) returns (r: Option<Effect>)
    modifies reader
    ensures Agrees(r, reader.pos, ParseTypeDesc(cp.poolEntries, reader.bytes, old(reader.pos)))
  {
    hide ParseOperand;
    var lhs := ReadOperand(reader, cp);
    if lhs.None? {
      return None;
    }
    var typeCpIndex := reader.ReadS4be();
    return Some(Nothing);
  }

  // The switch over the kinds of instruction.
  method ReadByKind(reader: BirFileReader, cp: ConstantPoolSet, kind: Byte) returns (r: Option<Effect>)
    modifies reader
    ensures Agrees(r, reader.pos, ParseByKind(cp.poolEntries, kind, reader.bytes, old(reader.pos)))
  {
    hide ParseTypeDesc, ParseStructure, ParseConstLoad, ParseGoto, ParseBinary, ParseUnary, ParseCondBranch, ParseMove,
      ParseCall, ParseTypeCast, ParseTypeTest, ParseNewArray, ParseAccess;
    var i: Option<Insn> := None;
    if kind == NEW_TYPEDESC {
      r := ReadTypeDescInsn(reader, cp);
      return;
    } else if kind == GOTO || kind == CONDITIONAL_BRANCH || kind == CALL {
      var t: Option<Terminator>;
      if kind == GOTO {
        t := ReadGoToInsn(reader, cp);
      } else if kind == CONDITIONAL_BRANCH {
        t := ReadCondBrInsn(reader, cp);
      } else {
        t := ReadFuncCallInsn(reader, cp);
      }
      return if t.Some? then Some(Ends(t.value)) else None;
    } else if kind == RETURN {
      return Some(Ends(Return));
    } else if kind == NEW_STRUCTURE {
      i := ReadStructureInsn(reader, cp);
    } else if kind == CONST_LOAD {
      i := ReadConstLoadInsn(reader, cp);
    } else if IsBinary(kind) {
      i := ReadBinaryInsn(reader, cp, kind);
    } else if IsUnary(kind) {
      i := ReadUnaryInsn(reader, cp, kind);
    } else if kind == MOVE {
      i := ReadMoveInsn(reader, cp);
    } else if kind == TYPE_CAST {
      i := ReadTypeCastInsn(reader, cp);
    } else if kind == TYPE_TEST {
      i := ReadTypeTestInsn(reader, cp);
    } else if kind == NEW_ARRAY {
      i := ReadArrayInsn(reader, cp);
    } else if IsAccess(kind) {
      i := ReadAccessInsn(reader, cp, kind);
    }
    return if i.Some? then Some(Adds(i.value)) else None;
  }

  // A block being read: instructions are appended, a terminator replaces the last.
  class BlockBuilder {
    const id: seq<Byte>
    var instructions: seq<Insn>
    var terminator: Option<Terminator>

    ghost function State(): Code
      reads this
    {
      Code(instructions, terminator)
    }

    constructor (id: seq<Byte>)
      ensures this.id == id && State() == Code([], None)
    {
      this.id, instructions, terminator := id, [], None;
    }

    method ReadInsn(reader: BirFileReader, cp: ConstantPoolSet) returns (ok: bool)
      modifies this, reader
      ensures match ParseInsn(cp.poolEntries, reader.bytes, old(reader.pos))
        case Got(e, next) => ok && reader.pos == next && State() == Extended(old(State()), e)
        case Aborts => !ok
    {
      hide ParseByKind;
      var sourceFileCpIndex := reader.ReadS4be();
      var sLine := reader.ReadS4be();
      var sCol := reader.ReadS4be();
      var eLine := reader.ReadS4be();
      var eCol := reader.ReadS4be();
      if StringCp(cp.poolEntries, sourceFileCpIndex).None? {
        return false;
      }
      var insnKind := reader.ReadU1();
      var e := ReadByKind(reader, cp, insnKind);
      if e.None? {
        return false;
      }
      match e.value {
        case Adds(i) => instructions := instructions + [i];
        case Ends(t) => terminator := Some(t);
        case Nothing =>
      }
      return true;
    }
  }

  lemma {:induction false} InsnsAbort(pool: Pool, s: seq<Byte>, p: nat, k: nat, n: nat)
    requires k <= n && ParseInsns(pool, s, p, k).Aborts?
    ensures ParseInsns(pool, s, p, n).Aborts?
    decreases n - k
  {
    hide ParseInsn;
    if k < n {
      InsnsAbort(pool, s, p, k + 1, n);
    }
  }

  // The blocks of a function being read.
  class BlockList {
    var basicBlocks: seq<BasicBlock>

    constructor ()
      ensures basicBlocks == []
    {
      basicBlocks := [];
    }

    // A block that is ignored is read all the same: the cursor ends at the same
    // place and the list is as before.
    method ReadBasicBlock(reader: BirFileReader, cp: ConstantPoolSet, ignore: bool) returns (ok: bool)
      modifies this, reader
      ensures match ParseBlock(cp.poolEntries, reader.bytes, old(reader.pos))
        case Got(b, next) =>
          ok && reader.pos == next
          && basicBlocks == if ignore then old(basicBlocks) else old(basicBlocks) + [b]
        case Aborts => !ok
    {
      hide ParseInsn, Extended;
      ghost var pool := cp.poolEntries;
      var nameCpIndex := reader.ReadS4be();
      var id := StringCp(cp.poolEntries, nameCpIndex);
      if id.None? {
        return false;
      }
      var basicBlock := new BlockBuilder(id.value);
      var insnCount := reader.ReadS4be();
      if insnCount < 0 {
        return false;
      }
      ghost var start := reader.pos;
      var i := 0;
      while i < insnCount
        invariant 0 <= i <= insnCount && basicBlocks == old(basicBlocks)
        invariant ParseInsns(pool, reader.bytes, start, i) == Got(basicBlock.State(), reader.pos)
      {
        var more := basicBlock.ReadInsn(reader, cp);
        if !more {
          assert ParseInsns(pool, reader.bytes, start, i + 1).Aborts?;
          InsnsAbort(pool, reader.bytes, start, i + 1, insnCount);
          return false;
        }
        i := i + 1;
      }
      basicBlocks := basicBlocks + [BasicBlock(basicBlock.id, Code(basicBlock.instructions, basicBlock.terminator))];
      if ignore {
        basicBlocks := basicBlocks[..|basicBlocks| - 1];
      }
      return true;
    }
  }
}

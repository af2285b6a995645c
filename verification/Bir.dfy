// Ballerina's intermediate representation: packages, their well-formedness, and a
// small-step semantics with named variables, a call stack, mutable mappings and a
// trace of external calls.
module Bir {
  import opened Options
  import opened Words
  import opened Division
  import opened HashTable

  // ----- Syntax -----

  datatype TypeTag =
    | IntTag | FloatTag | BooleanTag | ByteTag | StringTag | NilTag | MapTag
    | AnyTag | AnyDataTag | UnionTag

  datatype VarKind =
    | LocalKind | ArgKind | TempKind | ReturnKind | GlobalKind | SelfKind | ConstantKind | SyntheticKind

  // `member` matters for mappings only.
  datatype Variable = Variable(name: string, tag: TypeTag, member: TypeTag, kind: VarKind)

  datatype Operand = Operand(name: string, kind: VarKind)

  datatype BinaryKind =
    | Add | Sub | Mul | Div | Mod
    | Equal | NotEqual | GreaterThan | GreaterEqual | LessThan | LessEqual
    | BitwiseXor

  datatype UnaryKind = Not | Neg

  datatype Constant =
    | IntConst(n: Int64) | FloatConst(f: Word) | ByteConst(b: Byte) | BooleanConst(c: bool)
    | StringConst(s: Key) | NilConst

  datatype MapField = SpreadField(expr: Operand) | KeyValue(key: Operand, value: Operand)

  // FieldInit is one field of a mapping constructor still to be evaluated: a
  // NewMap leaves one for each field, and packages contain none.
  datatype Insn =
    | Move(lhs: Operand, rhs: Operand)
    | Binary(kind: BinaryKind, lhs: Operand, rhs1: Operand, rhs2: Operand)
    | Unary(op: UnaryKind, lhs: Operand, rhs: Operand)
    | ConstLoad(lhs: Operand, value: Constant)
    | TypeCast(lhs: Operand, rhs: Operand)
    | NewMap(lhs: Operand, fields: seq<MapField>)
    | MapStore(lhs: Operand, key: Operand, rhs: Operand)
    | MapLoad(lhs: Operand, key: Operand, rhs: Operand)
    | FieldInit(lhs: Operand, field: MapField)

  datatype Terminator =
    | Goto(next: string)
    | CondBranch(cond: Operand, onTrue: string, onFalse: string)
    | Call(callee: string, args: seq<Operand>, lhs: Operand, next: string)
    | Return

  datatype BasicBlock = BasicBlock(id: string, insns: seq<Insn>, terminator: Option<Terminator>)

  datatype Function = Function(
    name: string,
    isExternal: bool,
    returnVar: Option<Variable>,
    params: seq<Variable>,
    localVars: seq<Variable>,
    blocks: seq<BasicBlock>)

  datatype Package = Package(globals: seq<Variable>, functions: seq<Function>)

  const MAIN_FUNCTION_NAME: string := "main"

  predicate IsBalValue(tag: TypeTag) {
    tag.AnyTag? || tag.UnionTag? || tag.AnyDataTag?
  }

  predicate IsScalar(tag: TypeTag) {
    !IsBalValue(tag) && !tag.MapTag?
  }

  predicate IsMain(f: Function) {
    f.name == MAIN_FUNCTION_NAME
  }

  // ----- Lookups -----

  function FindVar(vars: seq<Variable>, name: string): (r: Option<Variable>)
    ensures r.Some? ==> r.value in vars && r.value.name == name
  {
    if vars == [] then None
    else if vars[0].name == name then Some(vars[0])
    else FindVar(vars[1..], name)
  }

  function FindFunction(fs: seq<Function>, name: string): (r: Option<Function>)
    ensures r.Some? ==> r.value in fs && r.value.name == name
  {
    if fs == [] then None
    else if fs[0].name == name then Some(fs[0])
    else FindFunction(fs[1..], name)
  }

  function FindBlock(blocks: seq<BasicBlock>, id: string): (r: Option<BasicBlock>)
    ensures r.Some? ==> r.value in blocks && r.value.id == id
  {
    if blocks == [] then None
    else if blocks[0].id == id then Some(blocks[0])
    else FindBlock(blocks[1..], id)
  }

  function VarOf(p: Package, f: Function, op: Operand): Option<Variable> {
    if op.kind.GlobalKind? then FindVar(p.globals, op.name) else FindVar(f.localVars, op.name)
  }

  function TagOf(p: Package, f: Function, op: Operand): Option<TypeTag> {
    var v := VarOf(p, f, op);
    if v.Some? then Some(v.value.tag) else None
  }

  // The parameters of a function body are its ARG-kind local variables, in order.
  function ArgVars(vars: seq<Variable>): seq<Variable> {
    if vars == [] then []
    else (if vars[0].kind.ArgKind? then [vars[0]] else []) + ArgVars(vars[1..])
  }

  function Tags(vars: seq<Variable>): (r: seq<TypeTag>)
    ensures |r| == |vars|
  {
    seq(|vars|, i requires 0 <= i < |vars| => vars[i].tag)
  }

  // ----- Values -----

  datatype Val =
    | IntV(n: Int64) | FloatV(f: Word) | BoolV(b: bool) | ByteV(c: Byte) | StrV(s: Key) | NilV
    | MapV(loc: nat)

  predicate HasTag(v: Val, tag: TypeTag) {
    match tag
    case IntTag => v.IntV?
    case FloatTag => v.FloatV?
    case BooleanTag => v.BoolV?
    case ByteTag => v.ByteV?
    case StringTag => v.StrV?
    case NilTag => v.NilV?
    case MapTag => v.MapV?
    case AnyTag => v.IntV? || v.BoolV?
    case AnyDataTag => v.IntV? || v.BoolV?
    case UnionTag => v.IntV? || v.BoolV?
  }

  datatype Event = ExternalCall(name: string, args: seq<Val>)

  // Arithmetic: IEEE operations on binary64 bit patterns, which no proof looks
  // inside; and whether an integer result that does not fit panics or wraps.
  datatype Arithmetic = Arithmetic(
    checked: bool,
    add: (Word, Word) -> Word, sub: (Word, Word) -> Word, mul: (Word, Word) -> Word,
    div: (Word, Word) -> Word, rem: (Word, Word) -> Word,
    eq: (Word, Word) -> bool, lt: (Word, Word) -> bool, le: (Word, Word) -> bool,
    gt: (Word, Word) -> bool, ge: (Word, Word) -> bool,
    ordered: (Word, Word) -> bool, toInt: Word -> Int64)

  // What a program runs in: arithmetic, and the functions it does not define,
  // whose answer may depend on everything they were asked before.
  datatype Env = Env(arith: Arithmetic, external: (string, seq<Val>, seq<Event>) -> Val)

  datatype Computed = Value(v: Val) | Panic | Wrong

  function BinaryValue(ar: Arithmetic, kind: BinaryKind, x: Val, y: Val): Computed {
    if x.IntV? && y.IntV? then IntBinary(ar, kind, x.n, y.n)
    else if x.FloatV? && y.FloatV? then FloatBinary(ar, kind, x.f, y.f)
    else if x.NilV? && y.NilV? && kind.Equal? then Value(BoolV(true))
    else Wrong
  }

  predicate Fits(n: int) {
    -TWO_63 <= n < TWO_63
  }

  // A sum, difference, product or negation.
  function IntResult(ar: Arithmetic, n: int): Computed {
    if ar.checked && !Fits(n) then Panic else Value(IntV(Wrap(n)))
  }

  // A zero divisor and MIN / -1 always panic.
  function IntBinary(ar: Arithmetic, kind: BinaryKind, a: Int64, b: Int64): Computed {
    match kind
    case Add => IntResult(ar, a + b)
    case Sub => IntResult(ar, a - b)
    case Mul => IntResult(ar, a * b)
    case Div =>
      if b == 0 then Panic
      else
        var q := SignedDiv(a, b);
        if Fits(q) then Value(IntV(q)) else Panic
    case Mod =>
      if b == 0 then Panic else Value(IntV(SignedRem(a, b)))
    case Equal => Value(BoolV(a == b))
    case NotEqual => Value(BoolV(a != b))
    case GreaterThan => Value(BoolV(a > b))
    case GreaterEqual => Value(BoolV(a >= b))
    case LessThan => Value(BoolV(a < b))
    case LessEqual => Value(BoolV(a <= b))
    case BitwiseXor => Value(IntV(Xor(a, b)))
  }

  function FloatBinary(ar: Arithmetic, kind: BinaryKind, a: Word, b: Word): Computed {
    match kind
    case Add => Value(FloatV(ar.add(a, b)))
    case Sub => Value(FloatV(ar.sub(a, b)))
    case Mul => Value(FloatV(ar.mul(a, b)))
    case Div => Value(FloatV(ar.div(a, b)))
    case Mod => Value(FloatV(ar.rem(a, b)))
    case Equal => Value(BoolV(ar.eq(a, b)))
    case NotEqual => Value(BoolV(!ar.eq(a, b)))
    case GreaterThan => Value(BoolV(ar.gt(a, b)))
    case GreaterEqual => Value(BoolV(ar.ge(a, b)))
    case LessThan => Value(BoolV(ar.lt(a, b)))
    case LessEqual => Value(BoolV(ar.le(a, b)))
    case BitwiseXor => Wrong
  }

  function UnaryValue(ar: Arithmetic, op: UnaryKind, x: Val): Computed {
    match op
    case Not => if x.BoolV? then Value(BoolV(!x.b)) else Wrong
    case Neg => if x.IntV? then IntResult(ar, 0 - x.n) else Wrong
  }

  function ConstValue(c: Constant): Val {
    match c
    case IntConst(n) => IntV(n)
    case FloatConst(f) => FloatV(f)
    case ByteConst(b) => ByteV(b)
    case BooleanConst(c) => BoolV(c)
    case StringConst(s) => StrV(s)
    case NilConst => NilV
  }

  // Casting to a type that admits the value keeps it; otherwise the cast panics.
  function CastValue(ar: Arithmetic, tag: TypeTag, v: Val): Computed {
    if tag.IntTag? && v.FloatV? then Value(IntV(ar.toInt(v.f)))
    else if HasTag(v, tag) then Value(v)
    else if v.IntV? || v.BoolV? then Panic
    else Wrong
  }

  // ----- States -----

  // A call in progress, and the block it is in: the entry before the first.
  datatype Frame = Frame(fn: Function, vars: map<string, Val>, block: string)

  const ENTRY_BLOCK: string := "entry"

  // A frame waiting for a call to return into dst and continue with block next.
  datatype Caller = Caller(frame: Frame, dst: Operand, next: string)

  datatype Store = Store(
    frame: Frame,
    callers: seq<Caller>,
    globals: map<string, Val>,
    maps: seq<map<Key, Int64>>,
    trace: seq<Event>)

  // The value of the outermost call, with the type its function declares.
  datatype Returned = Returned(tag: TypeTag, v: Val)

  datatype State =
    | Running(store: Store, rest: seq<Insn>, term: Terminator)
    | Done(result: Option<Returned>, trace: seq<Event>)
    | Panicked(trace: seq<Event>)
    | Stuck

  function Read(m: Store, op: Operand): Option<Val> {
    var vars := if op.kind.GlobalKind? then m.globals else m.frame.vars;
    if op.name in vars then Some(vars[op.name]) else None
  }

  function Write(m: Store, op: Operand, v: Val): Store {
    if op.kind.GlobalKind? then m.(globals := m.globals[op.name := v])
    else m.(frame := m.frame.(vars := m.frame.vars[op.name := v]))
  }

  function ReadAll(m: Store, ops: seq<Operand>): Option<seq<Val>> {
    if ops == [] then Some([])
    else
      var v := Read(m, ops[0]);
      var vs := ReadAll(m, ops[1..]);
      if v.Some? && vs.Some? then Some([v.value] + vs.value) else None
  }

  // The k-th ARG-kind variable of a new frame holds the k-th argument.
  function Bind(vars: seq<Variable>, args: seq<Val>): map<string, Val> {
    if vars == [] then map[]
    else if vars[0].kind.ArgKind? && args != [] then Bind(vars[1..], args[1..])[vars[0].name := args[0]]
    else Bind(vars[1..], args)
  }

  function Jump(m: Store, id: string): State {
    var b := FindBlock(m.frame.fn.blocks, id);
    if b.Some? && b.value.terminator.Some? then
      Running(m.(frame := m.frame.(block := id)), b.value.insns, b.value.terminator.value)
    else Stuck
  }

  function Enter(m: Store, f: Function, args: seq<Val>): State {
    if f.blocks == [] then Stuck
    else Jump(m.(frame := Frame(f, Bind(f.localVars, args), ENTRY_BLOCK)), f.blocks[0].id)
  }

  // ----- Steps -----

  function Finish(m: Store, lhs: Operand, e: Computed, rest: seq<Insn>, term: Terminator): State {
    match e
    case Value(v) => Running(Write(m, lhs, v), rest, term)
    case Panic => Panicked(m.trace)
    case Wrong => Stuck
  }

  predicate IsMap(m: Store, v: Option<Val>) {
    v.Some? && v.value.MapV? && v.value.loc < |m.maps|
  }

  function WithEntry(maps: seq<map<Key, Int64>>, l: nat, k: Key, v: Int64): seq<map<Key, Int64>>
    requires l < |maps|
  {
    var entries: map<Key, Int64> := maps[l][k := v];
    maps[l := entries]
  }

  function WithMerge(maps: seq<map<Key, Int64>>, l: nat, src: nat): seq<map<Key, Int64>>
    requires l < |maps| && src < |maps|
  {
    maps[l := maps[l] + maps[src]]
  }

  function StoreEntry(m: Store, target: Option<Val>, key: Option<Val>, value: Option<Val>): Option<Store> {
    if IsMap(m, target) && key.Some? && key.value.StrV? && value.Some? && value.value.IntV?
    then Some(m.(maps := WithEntry(m.maps, target.value.loc, key.value.s, value.value.n)))
    else None
  }

  function SpreadInto(m: Store, target: Option<Val>, src: Option<Val>): Option<Store> {
    if IsMap(m, target) && IsMap(m, src)
    then Some(m.(maps := WithMerge(m.maps, target.value.loc, src.value.loc)))
    else None
  }

  function InitField(m: Store, lhs: Operand, field: MapField): Option<Store> {
    match field
    case SpreadField(expr) => SpreadInto(m, Read(m, lhs), Read(m, expr))
    case KeyValue(key, value) => StoreEntry(m, Read(m, lhs), Read(m, key), Read(m, value))
  }

  function FieldInits(lhs: Operand, fields: seq<MapField>): seq<Insn> {
    seq(|fields|, i requires 0 <= i < |fields| => FieldInit(lhs, fields[i]))
  }

  function Resume(m: Option<Store>, rest: seq<Insn>, term: Terminator): State {
    if m.Some? then Running(m.value, rest, term) else Stuck
  }

  function ExecInsn(p: Package, env: Env, m: Store, i: Insn, rest: seq<Insn>, term: Terminator): State {
    match i
    case Move(lhs, rhs) =>
      var v := Read(m, rhs);
      if v.Some? then Running(Write(m, lhs, v.value), rest, term) else Stuck
    case Binary(kind, lhs, rhs1, rhs2) =>
      var x, y := Read(m, rhs1), Read(m, rhs2);
      if x.Some? && y.Some? then Finish(m, lhs, BinaryValue(env.arith, kind, x.value, y.value), rest, term)
      else Stuck
    case Unary(op, lhs, rhs) =>
      var x := Read(m, rhs);
      if x.Some? then Finish(m, lhs, UnaryValue(env.arith, op, x.value), rest, term) else Stuck
    case ConstLoad(lhs, value) => Running(Write(m, lhs, ConstValue(value)), rest, term)
    case TypeCast(lhs, rhs) =>
      var x, tag := Read(m, rhs), TagOf(p, m.frame.fn, lhs);
      if x.Some? && tag.Some? then Finish(m, lhs, CastValue(env.arith, tag.value, x.value), rest, term)
      else Stuck
    case NewMap(lhs, fields) =>
      var m' := Write(m.(maps := m.maps + [map[]]), lhs, MapV(|m.maps|));
      Running(m', FieldInits(lhs, fields) + rest, term)
    case MapStore(lhs, key, rhs) =>
      Resume(StoreEntry(m, Read(m, lhs), Read(m, key), Read(m, rhs)), rest, term)
    case MapLoad(lhs, key, rhs) =>
      var k, t := Read(m, key), Read(m, rhs);
      if IsMap(m, t) && k.Some? && k.value.StrV? then
        var entries := m.maps[t.value.loc];
        var v := if k.value.s in entries then IntV(entries[k.value.s]) else NilV;
        Running(Write(m, lhs, v), rest, term)
      else Stuck
    case FieldInit(lhs, field) => Resume(InitField(m, lhs, field), rest, term)
  }

  function ExecTerm(p: Package, env: Env, m: Store, term: Terminator): State {
    match term
    case Goto(next) => Jump(m, next)
    case CondBranch(cond, onTrue, onFalse) =>
      var c := Read(m, cond);
      if c.Some? && c.value.BoolV? then Jump(m, if c.value.b then onTrue else onFalse) else Stuck
    case Call(callee, args, lhs, next) =>
      var f, vs := FindFunction(p.functions, callee), ReadAll(m, args);
      if f.Some? && vs.Some? then
        if f.value.isExternal then CallExternal(env, m, f.value, vs.value, lhs, next)
        else Enter(m.(callers := [Caller(m.frame, lhs, next)] + m.callers), f.value, vs.value)
      else Stuck
    case Return => ReturnFrom(m)
  }

  // An external call leaves an event and an answer of the declared type.
  function CallExternal(env: Env, m: Store, f: Function, args: seq<Val>, lhs: Operand, next: string): State {
    var v := env.external(f.name, args, m.trace);
    var m' := m.(trace := m.trace + [ExternalCall(f.name, args)]);
    if f.returnVar.Some? && HasTag(v, f.returnVar.value.tag) then Jump(Write(m', lhs, v), next) else Stuck
  }

  function ReturnFrom(m: Store): State {
    if IsMain(m.frame.fn) then if m.callers == [] then Done(None, m.trace) else Stuck
    else if m.frame.fn.returnVar.None? then Stuck
    else
      var v := Read(m, Operand(m.frame.fn.returnVar.value.name, ReturnKind));
      if v.None? then Stuck
      else if m.callers == [] then Done(Some(Returned(m.frame.fn.returnVar.value.tag, v.value)), m.trace)
      else
        var c := m.callers[0];
        var m' := m.(frame := c.frame, callers := m.callers[1..]);
        Jump(Write(m', c.dst, v.value), c.next)
  }

  function Step(p: Package, env: Env, s: State): State {
    match s
    case Running(m, rest, term) =>
      if rest != [] then ExecInsn(p, env, m, rest[0], rest[1..], term) else ExecTerm(p, env, m, term)
    case _ => s
  }

  function Run(p: Package, env: Env, s: State, n: nat): State
    decreases n
  {
    if n == 0 then s else Run(p, env, Step(p, env, s), n - 1)
  }

  // Globals of a scalar type start at zero, false or nil; others are unset, as is
  // a global string.
  function InitialGlobals(vars: seq<Variable>): map<string, Val> {
    if vars == [] then map[]
    else
      var rest := InitialGlobals(vars[1..]);
      match vars[0].tag
      case IntTag => rest[vars[0].name := IntV(0)]
      case FloatTag => rest[vars[0].name := FloatV(0)]
      case BooleanTag => rest[vars[0].name := BoolV(false)]
      case ByteTag => rest[vars[0].name := ByteV(0)]
      case NilTag => rest[vars[0].name := NilV]
      case _ => rest
  }

  function Start(p: Package, f: Function, args: seq<Val>): State {
    Enter(Store(Frame(f, map[], ENTRY_BLOCK), [], InitialGlobals(p.globals), [], []), f, args)
  }

  // ----- Well-formed packages -----

  // The value the code generator never stores: main returns void, and the nil
  // loaded into its return variable is dropped.
  predicate IsMainResult(f: Function, op: Operand) {
    NamesMainResult(f, op) && !op.kind.GlobalKind?
  }

  predicate NamesMainResult(f: Function, op: Operand) {
    IsMain(f) && f.returnVar.Some? && op.name == f.returnVar.value.name
  }

  predicate Writable(p: Package, f: Function, op: Operand, tag: TypeTag) {
    TagOf(p, f, op) == Some(tag)
  }

  predicate Readable(p: Package, f: Function, op: Operand, tag: TypeTag) {
    TagOf(p, f, op) == Some(tag) && !IsMainResult(f, op)
  }

  predicate IntMap(p: Package, f: Function, op: Operand) {
    Readable(p, f, op, MapTag) && VarOf(p, f, op).value.member == IntTag
  }

  predicate WfBinary(kind: BinaryKind, lhs: TypeTag, rhs: TypeTag) {
    match kind
    case Add => lhs == rhs && (rhs.IntTag? || rhs.FloatTag?)
    case Sub => lhs == rhs && (rhs.IntTag? || rhs.FloatTag?)
    case Mul => lhs == rhs && (rhs.IntTag? || rhs.FloatTag?)
    case Div => lhs == rhs && (rhs.IntTag? || rhs.FloatTag?)
    case Mod => lhs == rhs && (rhs.IntTag? || rhs.FloatTag?)
    case Equal => lhs.BooleanTag? && (rhs.IntTag? || rhs.FloatTag? || rhs.NilTag?)
    case BitwiseXor => lhs.IntTag? && rhs.IntTag?
    case _ => lhs.BooleanTag? && (rhs.IntTag? || rhs.FloatTag?)
  }

  // The pairs for which the code generator converts and stores.
  predicate WfCast(lhs: TypeTag, rhs: TypeTag) {
    || (IsBalValue(rhs) && (IsBalValue(lhs) || lhs.BooleanTag? || lhs.IntTag?))
    || (IsBalValue(lhs) && (rhs.BooleanTag? || rhs.IntTag?))
    || (lhs.IntTag? && rhs.FloatTag?)
  }

  function ConstTag(c: Constant): TypeTag {
    match c
    case IntConst(_) => IntTag
    case FloatConst(_) => FloatTag
    case ByteConst(_) => ByteTag
    case BooleanConst(_) => BooleanTag
    case StringConst(_) => StringTag
    case NilConst => NilTag
  }

  predicate WfField(p: Package, f: Function, lhs: Operand, field: MapField) {
    IntMap(p, f, lhs) &&
    match field
    case SpreadField(expr) => IntMap(p, f, expr)
    case KeyValue(key, value) => Readable(p, f, key, StringTag) && Readable(p, f, value, IntTag)
  }

  predicate WfInsn(p: Package, f: Function, i: Insn) {
    match i
    case Move(lhs, rhs) =>
      var l, r := TagOf(p, f, lhs), TagOf(p, f, rhs);
      l.Some? && r.Some? && !IsMainResult(f, rhs) && (l == r || (IsBalValue(l.value) && IsBalValue(r.value)))
    case Binary(kind, lhs, rhs1, rhs2) =>
      var l, r := TagOf(p, f, lhs), TagOf(p, f, rhs1);
      l.Some? && r.Some? && Readable(p, f, rhs1, r.value) && Readable(p, f, rhs2, r.value)
      && WfBinary(kind, l.value, r.value)
    case Unary(op, lhs, rhs) =>
      var tag := if op.Not? then BooleanTag else IntTag;
      Writable(p, f, lhs, tag) && Readable(p, f, rhs, tag)
    case ConstLoad(lhs, value) =>
      Writable(p, f, lhs, ConstTag(value)) && (value.NilConst? && NamesMainResult(f, lhs) ==> !lhs.kind.GlobalKind?)
    case TypeCast(lhs, rhs) =>
      var l, r := TagOf(p, f, lhs), TagOf(p, f, rhs);
      l.Some? && r.Some? && !IsMainResult(f, rhs) && WfCast(l.value, r.value)
    case NewMap(lhs, fields) =>
      IntMap(p, f, lhs) && forall j :: 0 <= j < |fields| ==> WfField(p, f, lhs, fields[j])
    case MapStore(lhs, key, rhs) =>
      IntMap(p, f, lhs) && Readable(p, f, key, StringTag) && Readable(p, f, rhs, IntTag)
    case MapLoad(lhs, key, rhs) =>
      var l := TagOf(p, f, lhs);
      l.Some? && IsBalValue(l.value) && IntMap(p, f, rhs) && Readable(p, f, key, StringTag)
    case FieldInit(lhs, field) => WfField(p, f, lhs, field)
  }

  predicate HasBlock(f: Function, id: string) {
    FindBlock(f.blocks, id).Some?
  }

  predicate WfTerm(p: Package, f: Function, term: Terminator) {
    match term
    case Goto(next) => HasBlock(f, next)
    case CondBranch(cond, onTrue, onFalse) =>
      Readable(p, f, cond, BooleanTag) && HasBlock(f, onTrue) && HasBlock(f, onFalse)
    case Call(callee, args, lhs, next) =>
      var g := FindFunction(p.functions, callee);
      && g.Some? && !IsMain(g.value) && g.value.returnVar.Some?
      && |args| == |g.value.params|
      && (forall i :: 0 <= i < |args| ==> Readable(p, f, args[i], g.value.params[i].tag))
      && Writable(p, f, lhs, g.value.returnVar.value.tag)
      && HasBlock(f, next)
    case Return => true
  }

  predicate WfBlock(p: Package, f: Function, b: BasicBlock) {
    && b.terminator.Some? && WfTerm(p, f, b.terminator.value)
    && forall i :: 0 <= i < |b.insns| ==> WfInsn(p, f, b.insns[i]) && !b.insns[i].FieldInit?
  }

  predicate DistinctNames(vars: seq<Variable>) {
    forall i, j :: 0 <= i < j < |vars| ==> vars[i].name != vars[j].name
  }

  predicate WfBody(p: Package, f: Function) {
    && DistinctNames(f.localVars)
    && Tags(ArgVars(f.localVars)) == Tags(f.params)
    && f.blocks != []
    && (forall i, j :: 0 <= i < j < |f.blocks| ==> f.blocks[i].id != f.blocks[j].id)
    && (forall i :: 0 <= i < |f.blocks| ==> WfBlock(p, f, f.blocks[i]))
    && (!IsMain(f) ==>
          f.returnVar.Some? && FindVar(f.localVars, f.returnVar.value.name).Some?
          && FindVar(f.localVars, f.returnVar.value.name).value.tag == f.returnVar.value.tag)
  }

  // External functions take scalars and words, and return scalars.
  predicate WfExternal(f: Function) {
    && !IsMain(f)
    && f.returnVar.Some? && IsScalar(f.returnVar.value.tag)
    && forall i :: 0 <= i < |f.params| ==> !f.params[i].tag.MapTag?
  }

  predicate WfFunction(p: Package, f: Function) {
    if f.isExternal then WfExternal(f) else WfBody(p, f)
  }

  predicate WfPackage(p: Package) {
    && DistinctNames(p.globals)
    && (forall i, j :: 0 <= i < j < |p.functions| ==> p.functions[i].name != p.functions[j].name)
    && (forall i :: 0 <= i < |p.functions| ==> WfFunction(p, p.functions[i]))
  }
}

// A writer of BIR files, spelled with the numbers of the format: for every package
// the format can express there is a file, and compiling it gives that package back.
module PackageWriter {
  import opened Options
  import opened Words
  import opened Streams
  import opened ConstantPools
  import opened InsnFormat
  import opened FunctionReader
  import opened FunctionFormat
  import opened PackageFormat
  import B = Bir

  // ----- The constant pool -----

  // Twenty-one entries that every file begins with: the empty string, the types, the
  // mappings of each type, and a type for functions.
  function TypeShape(tag: Byte, body: BodyForm): EntryForm {
    ShapeForm(0, tag, 0, 0, 0, body)
  }

  const NO_MEMBERS: Tree := Word8([0], Choice(0, Leaf, List([], List([], Choice(0, Leaf, Leaf)))))

  function MapOf(member: Int32): EntryForm {
    TypeShape(15, ConstrainedForm(member, Leaf))
  }

  const HEAD: seq<EntryForm> :=
    [Plain(StringEntry([])),
     TypeShape(1, DroppedForm(Leaf)), TypeShape(2, DroppedForm(Leaf)), TypeShape(3, DroppedForm(Leaf)),
     TypeShape(5, DroppedForm(Leaf)), TypeShape(6, DroppedForm(Leaf)), TypeShape(10, DroppedForm(Leaf)),
     TypeShape(11, DroppedForm(Leaf)), TypeShape(17, DroppedForm(Leaf)), TypeShape(20, DroppedForm(NO_MEMBERS)),
     MapOf(1), MapOf(2), MapOf(3), MapOf(4), MapOf(5), MapOf(6), MapOf(7), MapOf(8), MapOf(9), MapOf(10),
     TypeShape(16, InvokableForm([], 0, 0, 1))]

  // Where a type is among them.
  function Position(tag: B.TypeTag): nat {
    match tag
    case IntTag => 1
    case ByteTag => 2
    case FloatTag => 3
    case StringTag => 4
    case BooleanTag => 5
    case NilTag => 6
    case AnyDataTag => 7
    case AnyTag => 8
    case UnionTag => 9
    case MapTag => 10
  }

  function TypeIndex(v: B.Variable): Int32 {
    if v.tag.MapTag? then 9 + Position(v.member) else Position(v.tag)
  }

  function NameEntry(s: string): EntryForm {
    Plain(StringEntry(Ascii(s)))
  }

  function IndexOf(pool: seq<EntryForm>, e: EntryForm): (i: nat)
    ensures e in pool ==> i < |pool| && pool[i] == e
  {
    if pool == [] || pool[0] == e then 0 else 1 + IndexOf(pool[1..], e)
  }

  function Ref(pool: seq<EntryForm>, e: EntryForm): Int32 {
    var i := IndexOf(pool, e);
    if i < TWO_31 then i else 0
  }

  function NameRef(pool: seq<EntryForm>, s: string): Int32 {
    Ref(pool, NameEntry(s))
  }

  // ----- Instructions -----

  function KindNumber(kind: B.VarKind): Byte {
    match kind
    case LocalKind => 1
    case ArgKind => 2
    case TempKind => 3
    case ReturnKind => 4
    case GlobalKind => 5
    case SelfKind => 6
    case ConstantKind => 7
    case SyntheticKind => 8
  }

  // The type of a global operand is read and dropped: any will do.
  function OperandIn(pool: seq<EntryForm>, op: B.Operand): OperandForm {
    OperandForm(0, KindNumber(op.kind), 0, NameRef(pool, op.name), 0, 1)
  }

  function OperandsIn(pool: seq<EntryForm>, ops: seq<B.Operand>): (r: seq<OperandForm>)
    ensures |r| == |ops|
  {
    seq(|ops|, i requires 0 <= i < |ops| => OperandIn(pool, ops[i]))
  }

  function BinaryNumber(kind: B.BinaryKind): Byte {
    match kind
    case Add => 61
    case Sub => 62
    case Mul => 63
    case Div => 64
    case Mod => 65
    case Equal => 66
    case NotEqual => 67
    case GreaterThan => 68
    case GreaterEqual => 69
    case LessThan => 70
    case LessEqual => 71
    case BitwiseXor => 85
  }

  function FieldIn(pool: seq<EntryForm>, f: B.MapField): FieldForm {
    match f
    case SpreadField(expr) => SpreadForm(OperandIn(pool, expr))
    case KeyValue(key, value) => KeyValueForm(1, OperandIn(pool, key), OperandIn(pool, value))
  }

  function FieldsIn(pool: seq<EntryForm>, fs: seq<B.MapField>): (r: seq<FieldForm>)
    ensures |r| == |fs|
  {
    seq(|fs|, i requires 0 <= i < |fs| => FieldIn(pool, fs[i]))
  }

  function ConstEntry(c: B.Constant): EntryForm {
    match c
    case IntConst(n) => Plain(IntEntry(n))
    case FloatConst(f) => Plain(FloatEntry(f))
    case ByteConst(b) => Plain(ByteEntry(b))
    case StringConst(s) => Plain(StringEntry(s))
    case _ => Plain(StringEntry([]))
  }

  function ConstIn(pool: seq<EntryForm>, c: B.Constant): ConstForm {
    match c
    case BooleanConst(b) => FlagForm(if b then 1 else 0)
    case NilConst => EmptyForm
    case _ => IndexForm(Ref(pool, ConstEntry(c)))
  }

  // The type of a cast is read and dropped.
  function InsnIn(pool: seq<EntryForm>, i: B.Insn): KindForm {
    match i
    case Move(lhs, rhs) => MoveForm(OperandIn(pool, rhs), OperandIn(pool, lhs))
    case Binary(kind, lhs, rhs1, rhs2) =>
      BinaryForm(BinaryNumber(kind), OperandIn(pool, rhs1), OperandIn(pool, rhs2), OperandIn(pool, lhs))
    case Unary(op, lhs, rhs) => UnaryForm(if op.Not? then 81 else 82, OperandIn(pool, rhs), OperandIn(pool, lhs))
    case ConstLoad(lhs, c) => ConstLoadForm(Position(B.ConstTag(c)), OperandIn(pool, lhs), ConstIn(pool, c))
    case TypeCast(lhs, rhs) => TypeCastForm(OperandIn(pool, lhs), OperandIn(pool, rhs), 1, 0)
    case NewMap(lhs, fields) => StructureForm(OperandIn(pool, lhs), OperandIn(pool, lhs), FieldsIn(pool, fields))
    case MapStore(lhs, key, rhs) => MapStoreForm(OperandIn(pool, lhs), OperandIn(pool, key), OperandIn(pool, rhs))
    case MapLoad(lhs, key, rhs) =>
      MapLoadForm(0, 0, OperandIn(pool, lhs), OperandIn(pool, key), OperandIn(pool, rhs))
    case FieldInit(lhs, _) => MoveForm(OperandIn(pool, lhs), OperandIn(pool, lhs))
  }

  function TermIn(pool: seq<EntryForm>, t: B.Terminator): KindForm {
    match t
    case Goto(next) => GotoForm(NameRef(pool, next))
    case CondBranch(cond, onTrue, onFalse) =>
      CondBranchForm(OperandIn(pool, cond), NameRef(pool, onTrue), NameRef(pool, onFalse))
    case Call(callee, args, lhs, next) =>
      CallForm(0, 0, NameRef(pool, callee), OperandsIn(pool, args), 1, OperandIn(pool, lhs), NameRef(pool, next))
    case Return => KindForm.ReturnForm
  }

  function Positioned(f: KindForm): InsnForm {
    InsnForm(0, 0, 0, 0, 0, f)
  }

  function InsnsIn(pool: seq<EntryForm>, insns: seq<B.Insn>): (r: seq<InsnForm>)
    ensures |r| == |insns|
  {
    seq(|insns|, i requires 0 <= i < |insns| => Positioned(InsnIn(pool, insns[i])))
  }

  function BlockIn(pool: seq<EntryForm>, b: B.BasicBlock): BlockForm {
    BlockForm(NameRef(pool, b.id),
              InsnsIn(pool, b.insns)
              + if b.terminator.Some? then [Positioned(TermIn(pool, b.terminator.value))] else [])
  }

  function BlocksIn(pool: seq<EntryForm>, bs: seq<B.BasicBlock>): (r: seq<BlockForm>)
    ensures |r| == |bs|
  {
    seq(|bs|, i requires 0 <= i < |bs| => BlockIn(pool, bs[i]))
  }

  // ----- Functions and packages -----

  function NameIn(pool: seq<EntryForm>, v: B.Variable): NameForm {
    NameForm(NameRef(pool, v.name), 0)
  }

  function ParamIn(pool: seq<EntryForm>, v: B.Variable): ParamForm {
    ParamForm(2, TypeIndex(v), NameRef(pool, v.name), 0, 0)
  }

  function LocalIn(pool: seq<EntryForm>, v: B.Variable): LocalForm {
    LocalForm(KindNumber(v.kind), TypeIndex(v), NameRef(pool, v.name), 0, 0, 0, 0)
  }

  function GlobalIn(pool: seq<EntryForm>, v: B.Variable): GlobalForm {
    GlobalForm(KindNumber(v.kind), NameRef(pool, v.name), 0, 0, [], TypeIndex(v))
  }

  function NamesIn(pool: seq<EntryForm>, vs: seq<B.Variable>): (r: seq<NameForm>)
    ensures |r| == |vs|
  {
    seq(|vs|, i requires 0 <= i < |vs| => NameIn(pool, vs[i]))
  }

  function ParamsIn(pool: seq<EntryForm>, vs: seq<B.Variable>): (r: seq<ParamForm>)
    ensures |r| == |vs|
  {
    seq(|vs|, i requires 0 <= i < |vs| => ParamIn(pool, vs[i]))
  }

  function LocalsIn(pool: seq<EntryForm>, vs: seq<B.Variable>): (r: seq<LocalForm>)
    ensures |r| == |vs|
  {
    seq(|vs|, i requires 0 <= i < |vs| => LocalIn(pool, vs[i]))
  }

  function GlobalsIn(pool: seq<EntryForm>, vs: seq<B.Variable>): (r: seq<GlobalForm>)
    ensures |r| == |vs|
  {
    seq(|vs|, i requires 0 <= i < |vs| => GlobalIn(pool, vs[i]))
  }

  const EIGHT_ZEROS: seq<Byte> := [0, 0, 0, 0, 0, 0, 0, 0]

  const NO_TABLES: Tree :=
    Choice(0, Leaf, Choice(0, Leaf, Raw([], Raw([], List([],
      Word8(EIGHT_ZEROS, List([], Word8(EIGHT_ZEROS, Word8([0, 0, 0, 0], Leaf)))))))))

  function ResultIn(pool: seq<EntryForm>, v: Option<B.Variable>): ReturnForm {
    if v.None? then ReturnForm.ReturnForm(0, 0, 0, 0)
    else ReturnForm.ReturnForm(1, KindNumber(v.value.kind), TypeIndex(v.value), NameRef(pool, v.value.name))
  }

  // An external function has the flag 2.
  function FunctionIn(pool: seq<EntryForm>, f: B.Function): FunctionForm {
    FunctionForm(
      HeaderForm(0, 0, 0, 0, 0, NameRef(pool, f.name), 0, if f.isExternal then 2 else 0, 0, 20, []),
      NamesIn(pool, f.params),
      NO_TABLES,
      ResultIn(pool, f.returnVar),
      ParamsIn(pool, f.params),
      LocalsIn(pool, f.localVars),
      seq(|f.params|, _ => []),
      BlocksIn(pool, f.blocks),
      0, 0)
  }

  function FunctionsIn(pool: seq<EntryForm>, fs: seq<B.Function>): (r: seq<FunctionForm>)
    ensures |r| == |fs|
  {
    seq(|fs|, i requires 0 <= i < |fs| => FunctionIn(pool, fs[i]))
  }

  function ModuleIn(pool: seq<EntryForm>, p: B.Package): ModuleForm {
    ModuleForm(
      0, 0, [], List([], List([], Leaf)),
      GlobalsIn(pool, p.globals),
      [],
      FunctionsIn(pool, p.functions))
  }

  // ----- The entries a package needs -----

  function Gather<T>(f: T -> seq<EntryForm>, xs: seq<T>): seq<EntryForm> {
    if xs == [] then [] else f(xs[0]) + Gather(f, xs[1..])
  }

  lemma {:induction false} Gathered<T>(f: T -> seq<EntryForm>, xs: seq<T>, i: nat, pool: seq<EntryForm>)
    requires i < |xs| && Covers(pool, Gather(f, xs))
    ensures Covers(pool, f(xs[i]))
    decreases i
  {
    if i > 0 {
      Gathered(f, xs[1..], i - 1, pool);
    }
  }

  predicate Covers(pool: seq<EntryForm>, needs: seq<EntryForm>) {
    forall e :: e in needs ==> e in pool
  }

  function OperandNeeds(op: B.Operand): seq<EntryForm> {
    [NameEntry(op.name)]
  }

  function FieldNeeds(f: B.MapField): seq<EntryForm> {
    match f
    case SpreadField(expr) => OperandNeeds(expr)
    case KeyValue(key, value) => OperandNeeds(key) + OperandNeeds(value)
  }

  function InsnNeeds(i: B.Insn): seq<EntryForm> {
    match i
    case Move(lhs, rhs) => OperandNeeds(lhs) + OperandNeeds(rhs)
    case Binary(_, lhs, rhs1, rhs2) => OperandNeeds(lhs) + OperandNeeds(rhs1) + OperandNeeds(rhs2)
    case Unary(_, lhs, rhs) => OperandNeeds(lhs) + OperandNeeds(rhs)
    case ConstLoad(lhs, c) => OperandNeeds(lhs) + [ConstEntry(c)]
    case TypeCast(lhs, rhs) => OperandNeeds(lhs) + OperandNeeds(rhs)
    case NewMap(lhs, fields) => OperandNeeds(lhs) + Gather(FieldNeeds, fields)
    case MapStore(lhs, key, rhs) => OperandNeeds(lhs) + OperandNeeds(key) + OperandNeeds(rhs)
    case MapLoad(lhs, key, rhs) => OperandNeeds(lhs) + OperandNeeds(key) + OperandNeeds(rhs)
    case FieldInit(_, _) => []
  }

  function TermNeeds(t: B.Terminator): seq<EntryForm> {
    match t
    case Goto(next) => [NameEntry(next)]
    case CondBranch(cond, onTrue, onFalse) => OperandNeeds(cond) + [NameEntry(onTrue), NameEntry(onFalse)]
    case Call(callee, args, lhs, next) =>
      [NameEntry(callee), NameEntry(next)] + Gather(OperandNeeds, args) + OperandNeeds(lhs)
    case Return => []
  }

  function BlockNeeds(b: B.BasicBlock): seq<EntryForm> {
    [NameEntry(b.id)] + Gather(InsnNeeds, b.insns) + if b.terminator.Some? then TermNeeds(b.terminator.value) else []
  }

  function VariableNeeds(v: B.Variable): seq<EntryForm> {
    [NameEntry(v.name)]
  }

  function FunctionNeeds(f: B.Function): seq<EntryForm> {
    [NameEntry(f.name)] + (if f.returnVar.Some? then VariableNeeds(f.returnVar.value) else [])
    + Gather(VariableNeeds, f.params) + Gather(VariableNeeds, f.localVars) + Gather(BlockNeeds, f.blocks)
  }

  function PackageNeeds(p: B.Package): seq<EntryForm> {
    Gather(VariableNeeds, p.globals) + Gather(FunctionNeeds, p.functions)
  }

  function PoolOf(p: B.Package): seq<EntryForm> {
    HEAD + PackageNeeds(p)
  }

  function FormOf(p: B.Package): FileForm {
    FileForm(PoolOf(p), ModuleIn(PoolOf(p), p))
  }

  // The file of a package.
  function FileOf(p: B.Package): seq<Byte> {
    if OkFile(FormOf(p)) then FileBytes(FormOf(p)) else []
  }

  // ----- What the format can express -----

  // Names of bytes, of a length that 31 bits can tell.
  predicate ByteSized(s: string) {
    |s| < TWO_31 && forall i :: 0 <= i < |s| ==> s[i] as int < 256
  }

  predicate OkName(op: B.Operand) {
    ByteSized(op.name)
  }

  predicate WritableField(f: B.MapField) {
    match f
    case SpreadField(expr) => OkName(expr)
    case KeyValue(key, value) => OkName(key) && OkName(value)
  }

  predicate WritableInsn(i: B.Insn) {
    match i
    case Move(lhs, rhs) => OkName(lhs) && OkName(rhs)
    case Binary(_, lhs, rhs1, rhs2) => OkName(lhs) && OkName(rhs1) && OkName(rhs2)
    case Unary(_, lhs, rhs) => OkName(lhs) && OkName(rhs)
    case ConstLoad(lhs, c) => OkName(lhs) && (c.StringConst? ==> |c.s| < TWO_31)
    case TypeCast(lhs, rhs) => OkName(lhs) && OkName(rhs)
    case NewMap(lhs, fields) =>
      OkName(lhs) && |fields| < TWO_31 && forall j :: 0 <= j < |fields| ==> WritableField(fields[j])
    case MapStore(lhs, key, rhs) => OkName(lhs) && OkName(key) && OkName(rhs)
    case MapLoad(lhs, key, rhs) => OkName(lhs) && OkName(key) && OkName(rhs)
    case FieldInit(_, _) => false
  }

  predicate WritableTerm(t: B.Terminator) {
    match t
    case Goto(next) => ByteSized(next)
    case CondBranch(cond, onTrue, onFalse) => OkName(cond) && ByteSized(onTrue) && ByteSized(onFalse)
    case Call(callee, args, lhs, next) =>
      && ByteSized(callee) && ByteSized(next) && OkName(lhs) && |args| < TWO_31
      && forall j :: 0 <= j < |args| ==> OkName(args[j])
    case Return => true
  }

  predicate WritableBlock(b: B.BasicBlock) {
    && ByteSized(b.id) && |b.insns| < TWO_31 - 1
    && (forall j :: 0 <= j < |b.insns| ==> WritableInsn(b.insns[j]))
    && (b.terminator.Some? ==> WritableTerm(b.terminator.value))
  }

  // The member of a variable that is no mapping means nothing; nil stands for it.
  predicate WritableVariable(v: B.Variable) {
    ByteSized(v.name) && (v.tag.MapTag? || v.member.NilTag?)
  }

  predicate WritableParam(v: B.Variable) {
    WritableVariable(v) && v.kind.ArgKind?
  }

  // The functions that every file has for the sake of its module are dropped.
  predicate ForModule(name: string) {
    ".<init>" <= name || ".<start>" <= name || ".<stop>" <= name
    || "..<init>" <= name || "..<start>" <= name || "..<stop>" <= name
  }

  predicate WritableFunction(f: B.Function) {
    && ByteSized(f.name) && !ForModule(f.name)
    && |f.params| < TWO_31 && |f.localVars| < TWO_31 && |f.blocks| < TWO_31
    && (f.returnVar.Some? ==> WritableVariable(f.returnVar.value))
    && (forall j :: 0 <= j < |f.params| ==> WritableParam(f.params[j]))
    && (forall j :: 0 <= j < |f.localVars| ==> WritableVariable(f.localVars[j]))
    && (forall j :: 0 <= j < |f.blocks| ==> WritableBlock(f.blocks[j]))
  }

  predicate Writable(p: B.Package) {
    && |PoolOf(p)| < TWO_31 && |p.globals| < TWO_31 && |p.functions| < TWO_31
    && (forall j :: 0 <= j < |p.globals| ==> WritableVariable(p.globals[j]))
    && (forall j :: 0 <= j < |p.functions| ==> WritableFunction(p.functions[j]))
  }
}

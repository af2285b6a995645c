// Compiling a written file gives the package it was written for.
module WrittenFiles {
  import opened Options
  import opened Words
  import opened Streams
  import opened ConstantPools
  import opened InsnReader
  import opened InsnFormat
  import opened FunctionReader
  import opened FunctionFormat
  import opened PackageFormat
  import opened PackageWriter
  import B = Bir
  import opened Linking
  import opened Compilation
  import Ir
  import Correctness

  // ----- The pool -----

  // A pool that begins as every file does.
  predicate Begins(pool: seq<EntryForm>) {
    OkPool(pool) && HEAD <= pool
  }

  lemma EntryIsFound(pool: seq<EntryForm>, e: EntryForm)
    requires OkPool(pool) && e in pool
    ensures EntryAt(EntriesOf(pool), Ref(pool, e)) == Some(EntryOf(e))
  {
    hide EntryOf, OkEntry;
  }

  lemma NameIsFound(pool: seq<EntryForm>, s: string)
    requires OkPool(pool) && NameEntry(s) in pool
    ensures StringCp(EntriesOf(pool), NameRef(pool, s)) == Some(Ascii(s))
  {
    hide EntriesOf, OkEntry, Ascii, Ref;
    EntryIsFound(pool, NameEntry(s));
  }

  lemma NameOfAscii(s: string)
    requires ByteSized(s)
    ensures Name(Ascii(s)) == s
  {
  }

  // The first entries, as they are read.
  lemma HeadIsFound(pool: seq<EntryForm>, i: nat)
    requires Begins(pool) && i < |HEAD|
    ensures |HEAD| <= |pool| == |EntriesOf(pool)| && OkEntry(HEAD[i]) && EntriesOf(pool)[i] == EntryOf(HEAD[i])
  {
    hide EntryOf, OkEntry;
    assert pool[i] == HEAD[i] && pool[i] in pool;
  }

  function TypeNumber(tag: B.TypeTag): Byte {
    match tag
    case IntTag => 1
    case ByteTag => 2
    case FloatTag => 3
    case StringTag => 5
    case BooleanTag => 6
    case NilTag => 10
    case AnyDataTag => 11
    case AnyTag => 17
    case UnionTag => 20
    case MapTag => 15
  }

  lemma TagIsLinked(tag: B.TypeTag)
    ensures LinkedTag(TypeNumber(tag)) == Some(tag)
  {
  }

  lemma TagIsFound(pool: seq<EntryForm>, tag: B.TypeTag)
    requires Begins(pool)
    ensures TypeTagCp(EntriesOf(pool), Position(tag)) == Some(TypeNumber(tag))
  {
    hide EntriesOf;
    HeadIsFound(pool, Position(tag));
  }

  // The type a variable is declared with.
  function Declared(v: B.Variable): TypeDecl {
    if v.tag.MapTag? then MapType(TypeNumber(v.member)) else SimpleType(TypeNumber(v.tag))
  }

  lemma TypeIsFound(pool: seq<EntryForm>, v: B.Variable)
    requires Begins(pool)
    ensures TypeCp(EntriesOf(pool), TypeIndex(v)) == Some(Declared(v))
  {
    hide EntriesOf, TypeNumber;
    HeadIsFound(pool, 0);
    HeadIsFound(pool, TypeIndex(v));
    if v.tag.MapTag? {
      TagIsFound(pool, v.member);
      MemberOfMap(v.member);
    } else {
      TagIsFound(pool, v.tag);
    }
    TypeNumbers(v.tag);
  }

  lemma TypeNumbers(tag: B.TypeTag)
    ensures TypeNumber(tag) != 19 && (TypeNumber(tag) == 15 <==> tag.MapTag?)
  {
  }

  lemma MemberOfMap(member: B.TypeTag)
    ensures HEAD[9 + Position(member)] == MapOf(Position(member))
  {
  }

  lemma KindIsLinked(kind: B.VarKind)
    ensures LinkedKind(KindNumber(kind)) == Some(kind)
  {
  }

  lemma VariableIsLinked(v: B.Variable, kind: B.VarKind)
    requires WritableVariable(v)
    ensures LinkedVariable(Ascii(v.name), Declared(v), kind) == Some(v.(kind := kind))
  {
    hide Ascii, LinkedTag, TypeNumber, Name;
    NameOfAscii(v.name);
    TagIsLinked(v.tag);
    TagIsLinked(v.member);
  }

  // ----- Operands and fields -----

  lemma OperandIsRead(pool: seq<EntryForm>, op: B.Operand)
    requires Begins(pool) && OkName(op) && Covers(pool, OperandNeeds(op))
    ensures var r := OperandOf(EntriesOf(pool), OperandIn(pool, op));
      r.Some? && LinkedOperand(r.value) == Some(op)
  {
    hide EntriesOf, OkEntry, Ascii, Name, StringCp, LinkedKind, KindNumber, Ref;
    assert NameEntry(op.name) in OperandNeeds(op);
    NameIsFound(pool, op.name);
    NameOfAscii(op.name);
    KindIsLinked(op.kind);
    TypeIsFound(pool, B.Variable("", B.IntTag, B.NilTag, B.LocalKind));
  }

  lemma {:induction false} OperandsAreRead(pool: seq<EntryForm>, ops: seq<B.Operand>)
    requires Begins(pool)
    requires forall j :: 0 <= j < |ops| ==> OkName(ops[j]) && Covers(pool, OperandNeeds(ops[j]))
    ensures var r := OperandsOf(EntriesOf(pool), OperandsIn(pool, ops));
      r.Some? && All(LinkedOperand, r.value) == Some(ops)
    decreases |ops|
  {
    hide EntriesOf, OperandOf, OperandIn, LinkedOperand, OkEntry, Covers, OperandNeeds, OkName;
    if ops != [] {
      var front, last := ops[..|ops| - 1], ops[|ops| - 1];
      var forms := OperandsIn(pool, ops);
      assert forms[..|ops| - 1] == OperandsIn(pool, front);
      OperandsAreRead(pool, front);
      OperandIsRead(pool, last);
      AllOfMore(LinkedOperand, OperandsOf(EntriesOf(pool), OperandsIn(pool, front)).value,
                OperandOf(EntriesOf(pool), forms[|ops| - 1]).value, front, last);
      assert front + [last] == ops;
    }
  }

  lemma AllOfMore<T, U>(convert: T -> Option<U>, xs: seq<T>, x: T, ys: seq<U>, y: U)
    requires All(convert, xs) == Some(ys) && convert(x) == Some(y)
    ensures All(convert, xs + [x]) == Some(ys + [y])
  {
    AllAre(convert, xs + [x], ys + [y]);
  }

  lemma FieldIsRead(pool: seq<EntryForm>, f: B.MapField)
    requires Begins(pool) && WritableField(f) && Covers(pool, FieldNeeds(f))
    ensures OkField(FieldIn(pool, f))
    ensures var r := FieldOf(EntriesOf(pool), FieldIn(pool, f));
      r.Some? && LinkedField(r.value) == Some(f)
  {
    hide EntriesOf, OperandOf, OperandIn, LinkedOperand, Begins, OperandNeeds, OkName;
    match f
    case SpreadField(expr) => OperandIsRead(pool, expr);
    case KeyValue(key, value) =>
      OperandIsRead(pool, key);
      OperandIsRead(pool, value);
  }

  lemma {:induction false} FieldsAreRead(pool: seq<EntryForm>, fs: seq<B.MapField>)
    requires Begins(pool)
    requires forall j :: 0 <= j < |fs| ==> WritableField(fs[j]) && Covers(pool, FieldNeeds(fs[j]))
    ensures forall f :: f in FieldsIn(pool, fs) ==> OkField(f)
    ensures var r := FieldsOf(EntriesOf(pool), FieldsIn(pool, fs));
      r.Some? && All(LinkedField, r.value) == Some(fs)
    decreases |fs|
  {
    hide EntriesOf, FieldOf, FieldIn, LinkedField, OkEntry, Covers, FieldNeeds, WritableField, OkField;
    if fs != [] {
      var front, last := fs[..|fs| - 1], fs[|fs| - 1];
      var forms := FieldsIn(pool, fs);
      assert forms[..|fs| - 1] == FieldsIn(pool, front);
      FieldsAreRead(pool, front);
      FieldIsRead(pool, last);
      AllOfMore(LinkedField, FieldsOf(EntriesOf(pool), FieldsIn(pool, front)).value,
                FieldOf(EntriesOf(pool), forms[|fs| - 1]).value, front, last);
      assert front + [last] == fs && forms == FieldsIn(pool, front) + [forms[|fs| - 1]];
    }
  }

  // ----- Instructions -----

  lemma ConstIsRead(pool: seq<EntryForm>, c: B.Constant)
    requires Begins(pool) && ConstEntry(c) in pool
    ensures var tag := TypeTagCp(EntriesOf(pool), Position(B.ConstTag(c)));
      && tag.Some? && OkConst(ClassOf(tag.value), ConstIn(pool, c))
      && var r := ConstOf(EntriesOf(pool), ClassOf(tag.value), ConstIn(pool, c));
        r.Some? && LinkedConstant(r.value) == c
  {
    hide EntriesOf, OkEntry, Ref, HEAD;
    TagIsFound(pool, B.ConstTag(c));
    EntryIsFound(pool, ConstEntry(c));
  }

  // The instruction is read and linked as it was.
  ghost predicate ReadAs(e: Option<Effect>, i: B.Insn) {
    e.Some? && e.value.Adds? && LinkedInsn(e.value.i) == Some(i)
  }

  lemma GatheredAll<T>(f: T -> seq<EntryForm>, xs: seq<T>, pool: seq<EntryForm>)
    requires Covers(pool, Gather(f, xs))
    ensures forall j :: 0 <= j < |xs| ==> Covers(pool, f(xs[j]))
  {
    forall j | 0 <= j < |xs|
      ensures Covers(pool, f(xs[j]))
    {
      Gathered(f, xs, j, pool);
    }
  }

  lemma CoversParts(pool: seq<EntryForm>, a: seq<EntryForm>, b: seq<EntryForm>)
    requires Covers(pool, a + b)
    ensures Covers(pool, a) && Covers(pool, b)
  {
    forall e | e in a || e in b
      ensures e in pool
    {
      assert e in a + b;
    }
  }

  lemma StructureIsRead(pool: seq<EntryForm>, lhs: B.Operand, fields: seq<B.MapField>)
    requires Begins(pool) && WritableInsn(B.NewMap(lhs, fields)) && Covers(pool, InsnNeeds(B.NewMap(lhs, fields)))
    ensures OkKind(EntriesOf(pool), InsnIn(pool, B.NewMap(lhs, fields)))
    ensures ReadAs(EffectOf(EntriesOf(pool), InsnIn(pool, B.NewMap(lhs, fields))), B.NewMap(lhs, fields))
  {
    hide EntriesOf, OperandOf, OperandIn, LinkedOperand, OkEntry, HEAD, OperandNeeds, OkName, FieldsOf, FieldsIn,
      Gather, WritableField, OkField, Covers;
    CoversParts(pool, OperandNeeds(lhs), Gather(FieldNeeds, fields));
    OperandIsRead(pool, lhs);
    GatheredAll(FieldNeeds, fields, pool);
    FieldsAreRead(pool, fields);
  }

  lemma ConstLoadIsRead(pool: seq<EntryForm>, lhs: B.Operand, c: B.Constant)
    requires Begins(pool) && WritableInsn(B.ConstLoad(lhs, c)) && Covers(pool, InsnNeeds(B.ConstLoad(lhs, c)))
    ensures OkKind(EntriesOf(pool), InsnIn(pool, B.ConstLoad(lhs, c)))
    ensures ReadAs(EffectOf(EntriesOf(pool), InsnIn(pool, B.ConstLoad(lhs, c))), B.ConstLoad(lhs, c))
  {
    hide EntriesOf, OperandOf, OperandIn, LinkedOperand, OkEntry, HEAD, OperandNeeds, OkName, ConstOf, ConstIn,
      LinkedConstant, ClassOf, OkConst, ConstEntry, Position;
    CoversParts(pool, OperandNeeds(lhs), [ConstEntry(c)]);
    assert ConstEntry(c) in [ConstEntry(c)];
    OperandIsRead(pool, lhs);
    ConstIsRead(pool, c);
  }

  lemma BinaryIsLinked(kind: B.BinaryKind)
    ensures LinkedBinary(BinaryNumber(kind)) == Some(kind)
    ensures 61 <= BinaryNumber(kind) <= 71 || BinaryNumber(kind) == 85
  {
  }

  lemma InsnIsRead(pool: seq<EntryForm>, i: B.Insn)
    requires Begins(pool) && WritableInsn(i) && Covers(pool, InsnNeeds(i))
    ensures OkKind(EntriesOf(pool), InsnIn(pool, i))
    ensures ReadAs(EffectOf(EntriesOf(pool), InsnIn(pool, i)), i)
  {
    hide EntriesOf, OperandOf, OperandIn, LinkedOperand, OkEntry, HEAD, OperandNeeds, OkName, Gather, BinaryNumber,
      LinkedBinary, Covers;
    match i
    case Move(lhs, rhs) => OperandPairIsRead(pool, lhs, rhs);
    case Binary(kind, lhs, rhs1, rhs2) =>
      OperandTripleIsRead(pool, lhs, rhs1, rhs2);
      BinaryIsLinked(kind);
    case Unary(_, lhs, rhs) => OperandPairIsRead(pool, lhs, rhs);
    case ConstLoad(lhs, c) => ConstLoadIsRead(pool, lhs, c);
    case TypeCast(lhs, rhs) =>
      OperandPairIsRead(pool, lhs, rhs);
      TypeIsFound(pool, B.Variable("", B.IntTag, B.NilTag, B.LocalKind));
    case NewMap(lhs, fields) => StructureIsRead(pool, lhs, fields);
    case MapStore(lhs, key, rhs) => OperandTripleIsRead(pool, lhs, key, rhs);
    case MapLoad(lhs, key, rhs) => OperandTripleIsRead(pool, lhs, key, rhs);
  }

  predicate OperandReads(pool: seq<EntryForm>, op: B.Operand)
    requires OkPool(pool)
  {
    var r := OperandOf(EntriesOf(pool), OperandIn(pool, op));
    r.Some? && LinkedOperand(r.value) == Some(op)
  }

  lemma OperandPairIsRead(pool: seq<EntryForm>, a: B.Operand, b: B.Operand)
    requires Begins(pool) && OkName(a) && OkName(b) && Covers(pool, OperandNeeds(a) + OperandNeeds(b))
    ensures OperandReads(pool, a) && OperandReads(pool, b)
  {
    hide OperandOf, OperandIn, LinkedOperand, EntriesOf, OkEntry, HEAD;
    CoversParts(pool, OperandNeeds(a), OperandNeeds(b));
    OperandIsRead(pool, a);
    OperandIsRead(pool, b);
  }

  lemma OperandTripleIsRead(pool: seq<EntryForm>, a: B.Operand, b: B.Operand, c: B.Operand)
    requires Begins(pool) && OkName(a) && OkName(b) && OkName(c)
    requires Covers(pool, OperandNeeds(a) + OperandNeeds(b) + OperandNeeds(c))
    ensures OperandReads(pool, a) && OperandReads(pool, b) && OperandReads(pool, c)
  {
    hide OperandOf, OperandIn, LinkedOperand, EntriesOf, OkEntry, HEAD, OperandNeeds, OkName;
    CoversParts(pool, OperandNeeds(a) + OperandNeeds(b), OperandNeeds(c));
    OperandPairIsRead(pool, a, b);
    OperandIsRead(pool, c);
  }

  // ----- Blocks -----

  ghost predicate EndsAs(e: Option<Effect>, t: B.Terminator) {
    e.Some? && e.value.Ends? && LinkedTerm(e.value.t) == Some(t)
  }

  lemma CallIsRead(pool: seq<EntryForm>, callee: string, args: seq<B.Operand>, lhs: B.Operand, next: string)
    requires Begins(pool) && WritableTerm(B.Call(callee, args, lhs, next))
    requires Covers(pool, TermNeeds(B.Call(callee, args, lhs, next)))
    ensures OkKind(EntriesOf(pool), TermIn(pool, B.Call(callee, args, lhs, next)))
    ensures EndsAs(EffectOf(EntriesOf(pool), TermIn(pool, B.Call(callee, args, lhs, next))),
                   B.Call(callee, args, lhs, next))
  {
    hide EntriesOf, OperandOf, OperandIn, LinkedOperand, OkEntry, HEAD, OperandNeeds, OkName, OperandsOf, OperandsIn,
      Gather, Covers, Ascii, Name, NameRef, StringCp;
    var names := [NameEntry(callee), NameEntry(next)];
    CoversParts(pool, names + Gather(OperandNeeds, args), OperandNeeds(lhs));
    CoversParts(pool, names, Gather(OperandNeeds, args));
    NamesCovered(pool, callee, next);
    GatheredAll(OperandNeeds, args, pool);
    OperandsAreRead(pool, args);
    OperandIsRead(pool, lhs);
    NameIsFound(pool, callee);
    NameIsFound(pool, next);
    NameOfAscii(callee);
    NameOfAscii(next);
  }

  lemma NamesCovered(pool: seq<EntryForm>, a: string, b: string)
    requires Covers(pool, [NameEntry(a), NameEntry(b)])
    ensures NameEntry(a) in pool && NameEntry(b) in pool
  {
    var needs := [NameEntry(a), NameEntry(b)];
    assert needs[0] in needs && needs[1] in needs;
  }

  lemma TermIsRead(pool: seq<EntryForm>, t: B.Terminator)
    requires Begins(pool) && WritableTerm(t) && Covers(pool, TermNeeds(t))
    ensures OkKind(EntriesOf(pool), TermIn(pool, t))
    ensures EndsAs(EffectOf(EntriesOf(pool), TermIn(pool, t)), t)
  {
    hide EntriesOf, OperandOf, OperandIn, LinkedOperand, OkEntry, HEAD, OperandNeeds, OkName, Ascii, Name, NameRef,
      StringCp, Gather;
    match t
    case Goto(next) =>
      assert NameEntry(next) in [NameEntry(next)];
      NameIsFound(pool, next);
      NameOfAscii(next);
    case CondBranch(cond, onTrue, onFalse) =>
      CoversParts(pool, OperandNeeds(cond), [NameEntry(onTrue), NameEntry(onFalse)]);
      NamesCovered(pool, onTrue, onFalse);
      OperandIsRead(pool, cond);
      NameIsFound(pool, onTrue);
      NameIsFound(pool, onFalse);
      NameOfAscii(onTrue);
      NameOfAscii(onFalse);
    case Call(callee, args, lhs, next) => CallIsRead(pool, callee, args, lhs, next);
    case Return =>
  }

  lemma PositionIsRead(pool: seq<EntryForm>, f: KindForm)
    requires Begins(pool) && OkKind(EntriesOf(pool), f)
    ensures StringCp(EntriesOf(pool), 0) == Some([])
    ensures InsnOf(EntriesOf(pool), Positioned(f)) == EffectOf(EntriesOf(pool), f)
  {
    hide EntriesOf, OkKind, EffectOf;
    HeadIsFound(pool, 0);
  }

  lemma {:induction false} InsnsAreRead(pool: seq<EntryForm>, insns: seq<B.Insn>)
    requires Begins(pool)
    requires forall j :: 0 <= j < |insns| ==> WritableInsn(insns[j]) && Covers(pool, InsnNeeds(insns[j]))
    ensures OkInsns(EntriesOf(pool), InsnsIn(pool, insns))
    ensures var r := CodeOf(EntriesOf(pool), InsnsIn(pool, insns));
      r.Some? && r.value.terminator.None? && All(LinkedInsn, r.value.insns) == Some(insns)
    decreases |insns|
  {
    hide EntriesOf, OkEntry, HEAD, InsnIn, InsnOf, EffectOf, LinkedInsn, Covers, InsnNeeds, WritableInsn, OkKind;
    if insns != [] {
      var front, last := insns[..|insns| - 1], insns[|insns| - 1];
      var forms := InsnsIn(pool, insns);
      assert forms[..|insns| - 1] == InsnsIn(pool, front);
      InsnsAreRead(pool, front);
      InsnIsRead(pool, last);
      PositionIsRead(pool, InsnIn(pool, last));
      var e := EffectOf(EntriesOf(pool), InsnIn(pool, last)).value;
      AllOfMore(LinkedInsn, CodeOf(EntriesOf(pool), InsnsIn(pool, front)).value.insns, e.i, front, last);
      assert front + [last] == insns && forms == InsnsIn(pool, front) + [forms[|insns| - 1]];
    }
  }

  lemma CodeIsRead(pool: seq<EntryForm>, b: B.BasicBlock)
    requires Begins(pool) && WritableBlock(b) && Covers(pool, BlockNeeds(b))
    ensures OkInsns(EntriesOf(pool), BlockIn(pool, b).insns)
    ensures var r := CodeOf(EntriesOf(pool), BlockIn(pool, b).insns);
      && r.Some? && All(LinkedInsn, r.value.insns) == Some(b.insns)
      && match b.terminator
         case None => r.value.terminator.None?
         case Some(t) => r.value.terminator.Some? && LinkedTerm(r.value.terminator.value) == Some(t)
  {
    hide EntriesOf, OkEntry, HEAD, InsnIn, TermIn, InsnOf, EffectOf, LinkedInsn, LinkedTerm, Covers, InsnNeeds,
      TermNeeds, WritableInsn, WritableTerm, OkKind, Gather;
    var head := [NameEntry(b.id)] + Gather(InsnNeeds, b.insns);
    var tail := if b.terminator.Some? then TermNeeds(b.terminator.value) else [];
    CoversParts(pool, head, tail);
    CoversParts(pool, [NameEntry(b.id)], Gather(InsnNeeds, b.insns));
    GatheredAll(InsnNeeds, b.insns, pool);
    InsnsAreRead(pool, b.insns);
    var forms := BlockIn(pool, b).insns;
    if b.terminator.Some? {
      TermIsRead(pool, b.terminator.value);
      PositionIsRead(pool, TermIn(pool, b.terminator.value));
      assert forms[..|forms| - 1] == InsnsIn(pool, b.insns);
    } else {
      assert forms == InsnsIn(pool, b.insns);
    }
  }

  lemma BlockIsRead(pool: seq<EntryForm>, b: B.BasicBlock)
    requires Begins(pool) && WritableBlock(b) && Covers(pool, BlockNeeds(b))
    ensures OkBlock(EntriesOf(pool), BlockIn(pool, b))
    ensures var r := BlockOf(EntriesOf(pool), BlockIn(pool, b));
      r.Some? && LinkedBlock(r.value) == Some(b)
  {
    hide EntriesOf, OkEntry, HEAD, InsnsIn, TermIn, CodeOf, LinkedInsn, LinkedTerm, WritableInsn, WritableTerm, OkInsns,
      Ascii, Name, NameRef, StringCp, All, Gather, TermNeeds;
    CodeIsRead(pool, b);
    assert NameEntry(b.id) in BlockNeeds(b);
    NameIsFound(pool, b.id);
    NameOfAscii(b.id);
  }

  lemma BlocksAreOk(pool: seq<EntryForm>, bs: seq<B.BasicBlock>)
    requires Begins(pool) && |bs| < TWO_31
    requires forall j :: 0 <= j < |bs| ==> WritableBlock(bs[j]) && Covers(pool, BlockNeeds(bs[j]))
    ensures OkBlocks(EntriesOf(pool), BlocksIn(pool, bs))
  {
    hide EntriesOf, OkEntry, HEAD, BlockIn, BlockOf, OkBlock, LinkedBlock, Covers, BlockNeeds, WritableBlock;
    forall j | 0 <= j < |bs|
      ensures OkBlock(EntriesOf(pool), BlockIn(pool, bs[j]))
    {
      BlockIsRead(pool, bs[j]);
    }
  }

  lemma {:induction false} BlocksAreRead(pool: seq<EntryForm>, bs: seq<B.BasicBlock>)
    requires Begins(pool) && |bs| < TWO_31
    requires forall j :: 0 <= j < |bs| ==> WritableBlock(bs[j]) && Covers(pool, BlockNeeds(bs[j]))
    ensures OkBlocks(EntriesOf(pool), BlocksIn(pool, bs))
    ensures var r := BlocksOf(EntriesOf(pool), BlocksIn(pool, bs));
      r.Some? && All(LinkedBlock, r.value) == Some(bs)
    decreases |bs|
  {
    hide EntriesOf, OkEntry, HEAD, BlockIn, BlockOf, OkBlock, OkBlocks, LinkedBlock, Covers, BlockNeeds, WritableBlock;
    BlocksAreOk(pool, bs);
    if bs != [] {
      var front, last := bs[..|bs| - 1], bs[|bs| - 1];
      assert BlocksIn(pool, bs)[..|bs| - 1] == BlocksIn(pool, front);
      BlocksAreRead(pool, front);
      BlockIsRead(pool, last);
      AllOfMore(LinkedBlock, BlocksOf(EntriesOf(pool), BlocksIn(pool, front)).value,
                BlockOf(EntriesOf(pool), BlockIn(pool, last)).value, front, last);
      assert front + [last] == bs;
    }
  }

  // ----- Variables -----

  lemma VariableIsFound(pool: seq<EntryForm>, v: B.Variable)
    requires Begins(pool) && WritableVariable(v) && Covers(pool, VariableNeeds(v))
    ensures StringCp(EntriesOf(pool), NameRef(pool, v.name)) == Some(Ascii(v.name))
    ensures TypeCp(EntriesOf(pool), TypeIndex(v)) == Some(Declared(v))
    ensures LinkedVar(VarDecl(Ascii(v.name), Declared(v), KindNumber(v.kind))) == Some(v)
  {
    hide EntriesOf, OkEntry, HEAD, Ascii, NameRef, StringCp, TypeCp, TypeIndex, Declared, LinkedVariable, LinkedKind,
      KindNumber;
    assert NameEntry(v.name) in VariableNeeds(v);
    NameIsFound(pool, v.name);
    TypeIsFound(pool, v);
    KindIsLinked(v.kind);
    VariableIsLinked(v, v.kind);
  }

  lemma LocalIsRead(pool: seq<EntryForm>, v: B.Variable)
    requires Begins(pool) && WritableVariable(v) && Covers(pool, VariableNeeds(v))
    ensures var r := LocalOf(EntriesOf(pool), LocalIn(pool, v));
      r.Some? && LinkedVar(r.value) == Some(v)
  {
    hide EntriesOf, OkEntry, HEAD, Ascii, NameRef, StringCp, TypeCp, TypeIndex, Declared, LinkedVar, KindNumber;
    VariableIsFound(pool, v);
  }

  lemma {:induction false} LocalsAreRead(pool: seq<EntryForm>, vs: seq<B.Variable>)
    requires Begins(pool)
    requires forall j :: 0 <= j < |vs| ==> WritableVariable(vs[j]) && Covers(pool, VariableNeeds(vs[j]))
    ensures var r := LocalsOf(EntriesOf(pool), LocalsIn(pool, vs));
      r.Some? && All(LinkedVar, r.value) == Some(vs)
    decreases |vs|
  {
    hide EntriesOf, OkEntry, HEAD, LocalIn, LocalOf, LinkedVar, Covers, VariableNeeds, WritableVariable;
    if vs != [] {
      var front, last := vs[..|vs| - 1], vs[|vs| - 1];
      var forms := LocalsIn(pool, vs);
      assert forms[..|vs| - 1] == LocalsIn(pool, front);
      LocalsAreRead(pool, front);
      LocalIsRead(pool, last);
      AllOfMore(LinkedVar, LocalsOf(EntriesOf(pool), LocalsIn(pool, front)).value,
                LocalOf(EntriesOf(pool), LocalIn(pool, last)).value, front, last);
      assert front + [last] == vs;
    }
  }

  lemma GlobalsAreOk(pool: seq<EntryForm>, vs: seq<B.Variable>)
    requires |vs| < TWO_31
    ensures OkGlobals(GlobalsIn(pool, vs))
  {
    hide NameRef, TypeIndex, KindNumber;
  }

  lemma GlobalIsRead(pool: seq<EntryForm>, v: B.Variable)
    requires Begins(pool) && WritableVariable(v) && Covers(pool, VariableNeeds(v))
    ensures var r := GlobalOf(EntriesOf(pool), GlobalIn(pool, v));
      r.Some? && LinkedVar(r.value) == Some(v)
  {
    hide EntriesOf, OkEntry, HEAD, Ascii, NameRef, StringCp, TypeCp, TypeIndex, Declared, LinkedVar, KindNumber;
    VariableIsFound(pool, v);
  }

  lemma {:induction false} GlobalsAreRead(pool: seq<EntryForm>, vs: seq<B.Variable>)
    requires Begins(pool)
    requires forall j :: 0 <= j < |vs| ==> WritableVariable(vs[j]) && Covers(pool, VariableNeeds(vs[j]))
    ensures var r := GlobalsOf(EntriesOf(pool), GlobalsIn(pool, vs));
      r.Some? && All(LinkedVar, r.value) == Some(vs)
    decreases |vs|
  {
    hide EntriesOf, OkEntry, HEAD, GlobalIn, GlobalOf, LinkedVar, Covers, VariableNeeds, WritableVariable;
    if vs != [] {
      var front, last := vs[..|vs| - 1], vs[|vs| - 1];
      var forms := GlobalsIn(pool, vs);
      assert forms[..|vs| - 1] == GlobalsIn(pool, front);
      GlobalsAreRead(pool, front);
      GlobalIsRead(pool, last);
      AllOfMore(LinkedVar, GlobalsOf(EntriesOf(pool), GlobalsIn(pool, front)).value,
                GlobalOf(EntriesOf(pool), GlobalIn(pool, last)).value, front, last);
      assert front + [last] == vs;
    }
  }

  lemma {:induction false} NamesAreRead(pool: seq<EntryForm>, vs: seq<B.Variable>)
    requires Begins(pool) && forall j :: 0 <= j < |vs| ==> Covers(pool, VariableNeeds(vs[j]))
    ensures var r := NamesOf(EntriesOf(pool), NamesIn(pool, vs));
      r.Some? && |r.value| == |vs| && forall j :: 0 <= j < |vs| ==> r.value[j] == Ascii(vs[j].name)
    decreases |vs|
  {
    hide EntriesOf, OkEntry, HEAD, Ascii, NameRef, StringCp, Covers;
    if vs != [] {
      var front, last := vs[..|vs| - 1], vs[|vs| - 1];
      assert NamesIn(pool, vs)[..|vs| - 1] == NamesIn(pool, front);
      NamesAreRead(pool, front);
      assert Covers(pool, VariableNeeds(last));
      NameIsCovered(pool, last);
      NameIsFound(pool, last.name);
    }
  }

  lemma NameIsCovered(pool: seq<EntryForm>, v: B.Variable)
    requires Covers(pool, VariableNeeds(v))
    ensures NameEntry(v.name) in pool
  {
    assert NameEntry(v.name) in VariableNeeds(v);
  }

  lemma ParamIsLinked(v: B.Variable)
    requires WritableParam(v)
    ensures LinkedParam(Param(Ascii(v.name), Declared(v))) == Some(v)
  {
    hide Ascii, Declared, LinkedVariable;
    VariableIsLinked(v, B.ArgKind);
  }

  lemma {:induction false} ParamsAreRead(pool: seq<EntryForm>, names: seq<seq<Byte>>, vs: seq<B.Variable>)
    requires Begins(pool) && |vs| <= |names| && forall j :: 0 <= j < |vs| ==> WritableParam(vs[j])
    requires forall j :: 0 <= j < |vs| ==> names[j] == Ascii(vs[j].name)
    ensures var r := ParamsOf(EntriesOf(pool), names, ParamsIn(pool, vs));
      r.Some? && All(LinkedParam, r.value) == Some(vs)
    decreases |vs|
  {
    hide EntriesOf, OkEntry, HEAD, Ascii, TypeCp, TypeIndex, Declared, LinkedParam, WritableParam, NameRef;
    if vs != [] {
      var front, last := vs[..|vs| - 1], vs[|vs| - 1];
      assert ParamsIn(pool, vs)[..|vs| - 1] == ParamsIn(pool, front);
      ParamsAreRead(pool, names, front);
      TypeIsFound(pool, last);
      ParamIsLinked(last);
      AllOfMore(LinkedParam, ParamsOf(EntriesOf(pool), names, ParamsIn(pool, front)).value,
                Param(Ascii(last.name), Declared(last)), front, last);
      assert front + [last] == vs;
    }
  }

  // ----- Functions -----

  lemma {:induction false} NoDefaults(pool: Pool, k: nat)
    ensures OkDefaults(pool, seq(k, _ => []))
    ensures DefaultsOf(pool, seq(k, _ => [])) == Some(())
    decreases k
  {
    var none: seq<BlockForm> := [];
    var fs: seq<seq<BlockForm>> := seq(k, _ => none);
    assert OkBlocks(pool, none) && BlocksOf(pool, none) == Some([]);
    if k > 0 {
      assert fs[..k - 1] == seq(k - 1, _ => none);
      NoDefaults(pool, k - 1);
    }
  }

  lemma IgnoredNames()
    ensures forall prefix :: prefix in IGNORED_NAMES <==>
      prefix in [".<init>", ".<start>", ".<stop>", "..<init>", "..<start>", "..<stop>"]
  {
  }

  lemma NotIgnored(name: string)
    requires ByteSized(name)
    ensures IsIgnored(Ascii(name)) <==> ForModule(name)
  {
    hide Ascii, IGNORED_NAMES;
    IgnoredNames();
    forall prefix | prefix in IGNORED_NAMES
      ensures Ascii(prefix) <= Ascii(name) <==> prefix <= name
    {
      PrefixesFit(prefix);
      SamePrefix(prefix, name);
    }
    var names := [".<init>", ".<start>", ".<stop>", "..<init>", "..<start>", "..<stop>"];
    assert names[0] in names && names[1] in names && names[2] in names && names[3] in names;
    assert names[4] in names && names[5] in names;
  }

  lemma PrefixesFit(prefix: string)
    requires prefix in [".<init>", ".<start>", ".<stop>", "..<init>", "..<start>", "..<stop>"]
    ensures ByteSized(prefix)
  {
  }

  lemma SamePrefix(prefix: string, name: string)
    requires ByteSized(name) && ByteSized(prefix)
    ensures Ascii(prefix) <= Ascii(name) <==> prefix <= name
  {
    if Ascii(prefix) <= Ascii(name) {
      forall i | 0 <= i < |prefix|
        ensures prefix[i] == name[i]
      {
        assert Ascii(prefix)[i] == Ascii(name)[i];
      }
    }
  }

  lemma TablesConform()
    ensures Conforms(TABLES, NO_TABLES)
  {
    var scopes := Word8(EIGHT_ZEROS, Word8([0, 0, 0, 0], Leaf));
    var scopeLayout := Num(8, ONE_S4);
    assert Conforms(scopeLayout, scopes);
    assert Conforms(Many(false, Num(4, Num(4, When(false, ONE_S4, End))), scopeLayout), List([], scopes));
  }

  lemma HeaderIsRead(pool: seq<EntryForm>, f: B.Function)
    requires Begins(pool) && NameEntry(f.name) in pool
    ensures HeaderOf(EntriesOf(pool), FunctionIn(pool, f).header)
      == Some(Header(Ascii(f.name), [], if f.isExternal then 2 else 0))
    ensures IsNative(if f.isExternal then 2 else 0) == f.isExternal
  {
    hide EntriesOf, OkEntry, Ascii, NameRef, TypeCp;
    NameIsFound(pool, f.name);
    HeadIsFound(pool, 0);
    HeadIsFound(pool, 20);
    TypeIsFound(pool, B.Variable("", B.IntTag, B.NilTag, B.LocalKind));
  }

  lemma ResultIsRead(pool: seq<EntryForm>, v: Option<B.Variable>)
    requires Begins(pool) && (v.Some? ==> WritableVariable(v.value) && Covers(pool, VariableNeeds(v.value)))
    ensures var r := ReturnOf(EntriesOf(pool), ResultIn(pool, v));
      && r.Some? && (v.None? <==> r.value.None?)
      && (v.Some? ==> LinkedVar(r.value.value) == v)
  {
    hide EntriesOf, OkEntry, HEAD, Ascii, NameRef, StringCp, TypeCp, TypeIndex, Declared, LinkedVar, KindNumber;
    if v.Some? {
      VariableIsFound(pool, v.value);
    }
  }

  // The parts of what a function needs.
  lemma FunctionCovered(pool: seq<EntryForm>, f: B.Function)
    requires Covers(pool, FunctionNeeds(f))
    ensures NameEntry(f.name) in pool
    ensures f.returnVar.Some? ==> Covers(pool, VariableNeeds(f.returnVar.value))
    ensures forall j :: 0 <= j < |f.params| ==> Covers(pool, VariableNeeds(f.params[j]))
    ensures forall j :: 0 <= j < |f.localVars| ==> Covers(pool, VariableNeeds(f.localVars[j]))
    ensures forall j :: 0 <= j < |f.blocks| ==> Covers(pool, BlockNeeds(f.blocks[j]))
  {
    hide Covers, VariableNeeds, BlockNeeds, Gather;
    var name := [NameEntry(f.name)];
    var result := if f.returnVar.Some? then VariableNeeds(f.returnVar.value) else [];
    var params, locals := Gather(VariableNeeds, f.params), Gather(VariableNeeds, f.localVars);
    CoversParts(pool, name + result + params + locals, Gather(BlockNeeds, f.blocks));
    CoversParts(pool, name + result + params, locals);
    CoversParts(pool, name + result, params);
    CoversParts(pool, name, result);
    FirstCovered(pool, NameEntry(f.name));
    GatheredAll(VariableNeeds, f.params, pool);
    GatheredAll(VariableNeeds, f.localVars, pool);
    GatheredAll(BlockNeeds, f.blocks, pool);
  }

  lemma FirstCovered(pool: seq<EntryForm>, e: EntryForm)
    requires Covers(pool, [e])
    ensures e in pool
  {
    assert e in [e];
  }

  lemma FunctionIsOk(pool: seq<EntryForm>, f: B.Function)
    requires Begins(pool) && WritableFunction(f) && Covers(pool, FunctionNeeds(f))
    ensures OkFunction(EntriesOf(pool), FunctionIn(pool, f))
  {
    hide EntriesOf, OkEntry, HEAD, BlocksIn, OkBlocks, OkDefaults, Conforms, LocalsIn, ParamsIn, NamesIn, WritableBlock,
      WritableVariable, WritableParam, BlockNeeds, Covers;
    FunctionCovered(pool, f);
    TablesConform();
    NoDefaults(EntriesOf(pool), |f.params|);
    BlocksAreRead(pool, f.blocks);
  }

  ghost predicate FunctionReads(pool: seq<EntryForm>, f: B.Function)
    requires OkPool(pool)
  {
    && OkFunction(EntriesOf(pool), FunctionIn(pool, f))
    && var r := FunctionOf(EntriesOf(pool), FunctionIn(pool, f));
      r.Some? && !IsIgnored(r.value.name) && LinkedFunction(r.value) == Some(f)
  }

  lemma FunctionIsRead(pool: seq<EntryForm>, f: B.Function)
    requires Begins(pool) && WritableFunction(f) && Covers(pool, FunctionNeeds(f))
    ensures FunctionReads(pool, f)
  {
    hide EntriesOf, OkEntry, HEAD, BlocksIn, BlocksOf, LocalsIn, LocalsOf, ParamsIn, ParamsOf, NamesIn, NamesOf,
      HeaderOf, ResultIn, ReturnOf, DefaultsOf, OkFunction, OkBlocks, OkDefaults, Covers, FunctionNeeds, BlockNeeds,
      VariableNeeds, WritableBlock, WritableVariable, WritableParam, All, LinkedVar, IsIgnored, Ascii, Name, IsNative,
      ForModule, ByteSized;
    FunctionCovered(pool, f);
    FunctionIsOk(pool, f);
    HeaderIsRead(pool, f);
    NamesAreRead(pool, f.params);
    ResultIsRead(pool, f.returnVar);
    ParamsAreRead(pool, NamesOf(EntriesOf(pool), NamesIn(pool, f.params)).value, f.params);
    LocalsAreRead(pool, f.localVars);
    NoDefaults(EntriesOf(pool), |f.params|);
    BlocksAreRead(pool, f.blocks);
    NotIgnored(f.name);
    NameOfAscii(f.name);
  }

  lemma FunctionsAreOk(pool: seq<EntryForm>, fs: seq<B.Function>)
    requires Begins(pool) && |fs| < TWO_31
    requires forall j :: 0 <= j < |fs| ==> WritableFunction(fs[j]) && Covers(pool, FunctionNeeds(fs[j]))
    ensures OkFunctions(EntriesOf(pool), FunctionsIn(pool, fs))
  {
    hide EntriesOf, OkEntry, HEAD, FunctionIn, OkFunction, Covers, FunctionNeeds, WritableFunction;
    forall j | 0 <= j < |fs|
      ensures OkFunction(EntriesOf(pool), FunctionIn(pool, fs[j]))
    {
      FunctionIsOk(pool, fs[j]);
    }
  }

  lemma {:induction false} FunctionsAreRead(pool: seq<EntryForm>, fs: seq<B.Function>)
    requires Begins(pool) && |fs| < TWO_31
    requires forall j :: 0 <= j < |fs| ==> WritableFunction(fs[j]) && Covers(pool, FunctionNeeds(fs[j]))
    ensures OkFunctions(EntriesOf(pool), FunctionsIn(pool, fs))
    ensures var r := FunctionsOf(EntriesOf(pool), FunctionsIn(pool, fs));
      r.Some? && All(LinkedFunction, r.value) == Some(fs)
    decreases |fs|
  {
    hide EntriesOf, OkEntry, HEAD, FunctionIn, FunctionOf, OkFunction, OkFunctions, LinkedFunction, Covers,
      FunctionNeeds, WritableFunction, IsIgnored;
    FunctionsAreOk(pool, fs);
    if fs != [] {
      var front, last := fs[..|fs| - 1], fs[|fs| - 1];
      assert FunctionsIn(pool, fs)[..|fs| - 1] == FunctionsIn(pool, front);
      FunctionsAreRead(pool, front);
      FunctionIsRead(pool, last);
      AllOfMore(LinkedFunction, FunctionsOf(EntriesOf(pool), FunctionsIn(pool, front)).value,
                FunctionOf(EntriesOf(pool), FunctionIn(pool, last)).value, front, last);
      assert front + [last] == fs;
    }
  }

  // ----- The pool of a package -----

  predicate AllOk(needs: seq<EntryForm>) {
    forall e :: e in needs ==> OkEntry(e)
  }

  lemma {:induction false} GatherOk<T>(f: T -> seq<EntryForm>, xs: seq<T>)
    requires forall j :: 0 <= j < |xs| ==> AllOk(f(xs[j]))
    ensures AllOk(Gather(f, xs))
    decreases |xs|
  {
    if xs != [] {
      assert AllOk(f(xs[0]));
      GatherOk(f, xs[1..]);
    }
  }

  lemma InsnNeedsOk(i: B.Insn)
    requires WritableInsn(i)
    ensures AllOk(InsnNeeds(i))
  {
    if i.NewMap? {
      forall j | 0 <= j < |i.fields|
        ensures AllOk(FieldNeeds(i.fields[j]))
      {
        assert WritableField(i.fields[j]);
      }
      GatherOk(FieldNeeds, i.fields);
    }
  }

  lemma TermNeedsOk(t: B.Terminator)
    requires WritableTerm(t)
    ensures AllOk(TermNeeds(t))
  {
    if t.Call? {
      GatherOk(OperandNeeds, t.args);
    }
  }

  lemma BlockNeedsOk(b: B.BasicBlock)
    requires WritableBlock(b)
    ensures AllOk(BlockNeeds(b))
  {
    hide InsnNeeds, TermNeeds, WritableInsn, WritableTerm;
    forall j | 0 <= j < |b.insns|
      ensures AllOk(InsnNeeds(b.insns[j]))
    {
      InsnNeedsOk(b.insns[j]);
    }
    GatherOk(InsnNeeds, b.insns);
    if b.terminator.Some? {
      TermNeedsOk(b.terminator.value);
    }
  }

  lemma FunctionNeedsOk(f: B.Function)
    requires WritableFunction(f)
    ensures AllOk(FunctionNeeds(f))
  {
    hide BlockNeeds, WritableBlock, ForModule;
    forall j | 0 <= j < |f.blocks|
      ensures AllOk(BlockNeeds(f.blocks[j]))
    {
      BlockNeedsOk(f.blocks[j]);
    }
    GatherOk(BlockNeeds, f.blocks);
    forall j | 0 <= j < |f.params|
      ensures AllOk(VariableNeeds(f.params[j]))
    {
      assert WritableParam(f.params[j]);
    }
    GatherOk(VariableNeeds, f.params);
    GatherOk(VariableNeeds, f.localVars);
  }

  lemma PlainTypesAreOk(tag: Byte)
    requires tag == 1 || tag == 2 || tag == 3 || tag == 5 || tag == 6 || tag == 10 || tag == 11 || tag == 17
    ensures OkEntry(TypeShape(tag, DroppedForm(Leaf)))
  {
  }

  lemma OtherTypesAreOk()
    ensures OkEntry(TypeShape(20, DroppedForm(NO_MEMBERS)))
    ensures OkEntry(TypeShape(16, InvokableForm([], 0, 0, 1)))
    ensures forall member: Int32 :: OkEntry(MapOf(member))
    ensures OkEntry(Plain(StringEntry([])))
  {
    var l, t := KindOf(20).dropped, NO_MEMBERS;
    assert Conforms(l.next.next.next.next, t.next.next.next.next);
    assert Conforms(l, t);
  }

  lemma HeadIsOk()
    ensures AllOk(HEAD)
  {
    hide OkEntry, TypeShape, MapOf;
    PlainTypesAreOk(1);
    PlainTypesAreOk(2);
    PlainTypesAreOk(3);
    PlainTypesAreOk(5);
    PlainTypesAreOk(6);
    PlainTypesAreOk(10);
    PlainTypesAreOk(11);
    PlainTypesAreOk(17);
    OtherTypesAreOk();
  }

  lemma PoolBegins(p: B.Package)
    requires Writable(p)
    ensures Begins(PoolOf(p)) && Covers(PoolOf(p), PackageNeeds(p))
  {
    hide FunctionNeeds, WritableFunction, OkEntry, HEAD;
    HeadIsOk();
    forall j | 0 <= j < |p.functions|
      ensures AllOk(FunctionNeeds(p.functions[j]))
    {
      FunctionNeedsOk(p.functions[j]);
    }
    GatherOk(FunctionNeeds, p.functions);
    forall j | 0 <= j < |p.globals|
      ensures AllOk(VariableNeeds(p.globals[j]))
    {
      GlobalNeedsOk(p.globals[j]);
    }
    GatherOk(VariableNeeds, p.globals);
  }

  lemma GlobalNeedsOk(v: B.Variable)
    requires WritableVariable(v)
    ensures AllOk(VariableNeeds(v))
  {
  }

  // ----- Files -----

  lemma ModuleIsRead(pool: seq<EntryForm>, p: B.Package)
    requires Begins(pool) && Writable(p) && Covers(pool, PackageNeeds(p))
    ensures OkModule(EntriesOf(pool), ModuleIn(pool, p))
    ensures var r := PackageOf(EntriesOf(pool), ModuleIn(pool, p));
      r.Some? && Linked(r.value) == Some(p)
  {
    hide EntriesOf, OkEntry, HEAD, FunctionsIn, FunctionsOf, OkFunctions, GlobalsIn, GlobalsOf, OkGlobals,
      LinkedFunction, LinkedVar, All, Covers, FunctionNeeds, VariableNeeds, Gather, WritableFunction, WritableVariable;
    CoversParts(pool, Gather(VariableNeeds, p.globals), Gather(FunctionNeeds, p.functions));
    GatheredAll(VariableNeeds, p.globals, pool);
    GatheredAll(FunctionNeeds, p.functions, pool);
    GlobalsAreRead(pool, p.globals);
    GlobalsAreOk(pool, p.globals);
    FunctionsAreRead(pool, p.functions);
    FirstIsName();
    HeadIsFound(pool, 0);
  }

  lemma FirstIsName()
    ensures |HEAD| > 0 && HEAD[0] == Plain(StringEntry([]))
  {
  }

  // Every package the format can express has a file, and compiling that file, whatever
  // follows it, gives the package back.
  lemma WrittenIsCompiled(p: B.Package, rest: seq<Byte>)
    requires B.WfPackage(p) && Writable(p)
    ensures OkFile(FormOf(p)) && SourceOf(FileOf(p) + rest) == Some(p)
  {
    hide B.WfPackage, OkModule, PackageOf, Linked, EntriesOf, OkEntry, PoolOf, ModuleIn, FileBytes;
    PoolBegins(p);
    ModuleIsRead(PoolOf(p), p);
    SourceIsWritten(FormOf(p), rest);
  }

  // So every such package can be compiled from its file to code that means the same.
  lemma WrittenMeaningPreserved(p: B.Package, rest: seq<Byte>, env: Ir.IrEnv, f: B.Function, vals: seq<B.Val>,
                                args: seq<Ir.IrVal>, n: nat)
    requires B.WfPackage(p) && Writable(p) && f in p.functions && !f.isExternal
    requires Correctness.ArgsMatch(f, vals, args)
    ensures SourceOf(FileOf(p) + rest) == Some(p) && Preserves(p, env, f, vals, args, n)
  {
    hide B.WfPackage, Writable, FileOf, Correctness.ArgsMatch, Preserves, SourceOf;
    WrittenIsCompiled(p, rest);
    PackagePreserves(p, env, f, vals, args, n);
  }
}

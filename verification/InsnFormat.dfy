// The format of instructions and basic blocks, every field and number of it, and the proof
// that reading inverts it: the same instructions, and the cursor at the next byte.
module InsnFormat {
  import opened Options
  import opened Words
  import opened Streams
  import opened ConstantPools
  import opened InsnReader

  // ----- Operands -----

  // The package and the type are there for a global variable only.
  datatype OperandForm =
    OperandForm(ignored: Byte, kind: Byte, scope: Byte, name: Int32, package: Int32, typ: Int32)

  function OperandBytes(f: OperandForm): seq<Byte> {
    [f.ignored] + [f.kind] + [f.scope] + S4Bytes(f.name)
    + (if f.kind == 5 then S4Bytes(f.package) + S4Bytes(f.typ) else [])
  }

  // The operand a form stands for; None when the pool lacks what it mentions.
  function OperandOf(pool: Pool, f: OperandForm): Option<Operand> {
    var name :- StringCp(pool, f.name);
    if f.kind == 5 && TypeCp(pool, f.typ).None? then None else Some(Operand(name, f.kind))
  }

  lemma OperandRoundTrip(pool: Pool, f: OperandForm, s: seq<Byte>, p: nat)
    requires At(s, p, OperandBytes(f))
    ensures ParseOperand(pool, s, p) == Found(OperandOf(pool, f), p + |OperandBytes(f)|)
  {
    hide At, U1, S4, S4Bytes, StringCp, TypeCp;
    Reads(s);
    var tail := if f.kind == 5 then S4Bytes(f.package) + S4Bytes(f.typ) else [];
    Parts5(s, p, [f.ignored], [f.kind], [f.scope], S4Bytes(f.name), tail);
    if f.kind == 5 {
      Parts2(s, p + 7, S4Bytes(f.package), S4Bytes(f.typ));
    }
  }

  function PairBytes(a: OperandForm, b: OperandForm): seq<Byte> {
    OperandBytes(a) + OperandBytes(b)
  }

  function PairOf(pool: Pool, a: OperandForm, b: OperandForm): Option<(Operand, Operand)> {
    var x :- OperandOf(pool, a);
    var y :- OperandOf(pool, b);
    Some((x, y))
  }

  lemma PairRoundTrip(pool: Pool, a: OperandForm, b: OperandForm, s: seq<Byte>, p: nat)
    requires At(s, p, PairBytes(a, b))
    ensures ParsePair(pool, s, p) == Found(PairOf(pool, a, b), p + |PairBytes(a, b)|)
  {
    hide At, ParseOperand, OperandBytes, OperandOf;
    Parts2(s, p, OperandBytes(a), OperandBytes(b));
    OperandRoundTrip(pool, a, s, p);
    OperandRoundTrip(pool, b, s, p + |OperandBytes(a)|);
  }

  function TripleBytes(a: OperandForm, b: OperandForm, c: OperandForm): seq<Byte> {
    OperandBytes(a) + PairBytes(b, c)
  }

  function TripleOf(pool: Pool, a: OperandForm, b: OperandForm, c: OperandForm): Option<(Operand, Operand, Operand)> {
    var x :- OperandOf(pool, a);
    var yz :- PairOf(pool, b, c);
    Some((x, yz.0, yz.1))
  }

  lemma TripleRoundTrip(pool: Pool, a: OperandForm, b: OperandForm, c: OperandForm, s: seq<Byte>, p: nat)
    requires At(s, p, TripleBytes(a, b, c))
    ensures ParseTriple(pool, s, p) == Found(TripleOf(pool, a, b, c), p + |TripleBytes(a, b, c)|)
  {
    hide At, ParseOperand, ParsePair, OperandBytes, PairBytes, OperandOf, PairOf;
    Parts2(s, p, OperandBytes(a), PairBytes(b, c));
    OperandRoundTrip(pool, a, s, p);
    PairRoundTrip(pool, b, c, s, p + |OperandBytes(a)|);
  }

  function OperandsBytes(fs: seq<OperandForm>): seq<Byte> {
    if fs == [] then [] else OperandsBytes(fs[..|fs| - 1]) + OperandBytes(fs[|fs| - 1])
  }

  function OperandsOf(pool: Pool, fs: seq<OperandForm>): Option<seq<Operand>> {
    if fs == [] then Some([])
    else
      var before :- OperandsOf(pool, fs[..|fs| - 1]);
      var o :- OperandOf(pool, fs[|fs| - 1]);
      Some(before + [o])
  }

  lemma {:induction false} OperandsRoundTrip(pool: Pool, fs: seq<OperandForm>, s: seq<Byte>, p: nat)
    requires At(s, p, OperandsBytes(fs))
    ensures ParseOperands(pool, s, p, |fs|) == Found(OperandsOf(pool, fs), p + |OperandsBytes(fs)|)
    decreases |fs|
  {
    hide At, ParseOperand, OperandBytes, OperandOf;
    if fs != [] {
      var front, last := fs[..|fs| - 1], fs[|fs| - 1];
      Parts2(s, p, OperandsBytes(front), OperandBytes(last));
      OperandsRoundTrip(pool, front, s, p);
      OperandRoundTrip(pool, last, s, p + |OperandsBytes(front)|);
    }
  }

  // ----- Fields of a mapping constructor -----

  datatype FieldForm = SpreadForm(expr: OperandForm) | KeyValueForm(kind: Byte, key: OperandForm, value: OperandForm)

  predicate OkField(f: FieldForm) {
    f.KeyValueForm? ==> f.kind != 0
  }

  function FieldBytes(f: FieldForm): seq<Byte> {
    match f
    case SpreadForm(expr) => [0] + OperandBytes(expr)
    case KeyValueForm(kind, key, value) => [kind] + PairBytes(key, value)
  }

  function FieldOf(pool: Pool, f: FieldForm): Option<MapField> {
    match f
    case SpreadForm(expr) => (var o :- OperandOf(pool, expr); Some(SpreadField(o)))
    case KeyValueForm(_, key, value) => (var kv :- PairOf(pool, key, value); Some(KeyValue(kv.0, kv.1)))
  }

  lemma FieldRoundTrip(pool: Pool, f: FieldForm, s: seq<Byte>, p: nat)
    requires OkField(f) && At(s, p, FieldBytes(f))
    ensures ParseField(pool, s, p) == Found(FieldOf(pool, f), p + |FieldBytes(f)|)
  {
    hide At, U1, ParseOperand, ParsePair, OperandBytes, PairBytes, OperandOf, PairOf;
    Reads(s);
    match f
    case SpreadForm(expr) =>
      Parts2(s, p, [0], OperandBytes(expr));
      OperandRoundTrip(pool, expr, s, p + 1);
    case KeyValueForm(kind, key, value) =>
      Parts2(s, p, [kind], PairBytes(key, value));
      PairRoundTrip(pool, key, value, s, p + 1);
  }

  function FieldsBytes(fs: seq<FieldForm>): seq<Byte> {
    if fs == [] then [] else FieldsBytes(fs[..|fs| - 1]) + FieldBytes(fs[|fs| - 1])
  }

  function FieldsOf(pool: Pool, fs: seq<FieldForm>): Option<seq<MapField>> {
    if fs == [] then Some([])
    else
      var before :- FieldsOf(pool, fs[..|fs| - 1]);
      var f :- FieldOf(pool, fs[|fs| - 1]);
      Some(before + [f])
  }

  lemma {:induction false} FieldsRoundTrip(pool: Pool, fs: seq<FieldForm>, s: seq<Byte>, p: nat)
    requires (forall f :: f in fs ==> OkField(f)) && At(s, p, FieldsBytes(fs))
    ensures ParseFields(pool, s, p, |fs|) == Found(FieldsOf(pool, fs), p + |FieldsBytes(fs)|)
    decreases |fs|
  {
    hide At, ParseField, FieldBytes, FieldOf, OkField;
    if fs != [] {
      var front, last := fs[..|fs| - 1], fs[|fs| - 1];
      Parts2(s, p, FieldsBytes(front), FieldBytes(last));
      FieldsRoundTrip(pool, front, s, p);
      FieldRoundTrip(pool, last, s, p + |FieldsBytes(front)|);
    }
  }

  // ----- Instructions -----

  // The value of a constant load: a place in the pool, a flag, or nothing.
  datatype ConstForm = IndexForm(i: Int32) | FlagForm(flag: Byte) | EmptyForm

  datatype KindForm =
    | TypeDescForm(lhs: OperandForm, typ: Int32)
    | StructureForm(rhs: OperandForm, lhs: OperandForm, fields: seq<FieldForm>)
    | ConstLoadForm(typ: Int32, lhs: OperandForm, value: ConstForm)
    | GotoForm(next: Int32)
    | ReturnForm
    | BinaryForm(kind: Byte, rhs1: OperandForm, rhs2: OperandForm, lhs: OperandForm)
    | UnaryForm(kind: Byte, rhs: OperandForm, lhs: OperandForm)
    | CondBranchForm(cond: OperandForm, onTrue: Int32, onFalse: Int32)
    | MoveForm(rhs: OperandForm, lhs: OperandForm)
    | CallForm(isVirtual: Byte, package: Int32, callee: Int32, args: seq<OperandForm>,
               hasLhs: Byte, lhs: OperandForm, next: Int32)
    | TypeCastForm(lhs: OperandForm, rhs: OperandForm, typ: Int32, isCheckTypes: Byte)
    | TypeTestForm(typ: Int32, lhs: OperandForm, rhs: OperandForm)
    | NewArrayForm(typ: Int32, lhs: OperandForm, size: OperandForm, initial: seq<OperandForm>)
    | ArrayStoreForm(lhs: OperandForm, key: OperandForm, rhs: OperandForm)
    | ArrayLoadForm(optional: Byte, filling: Byte, lhs: OperandForm, key: OperandForm, rhs: OperandForm)
    | MapStoreForm(lhs: OperandForm, key: OperandForm, rhs: OperandForm)
    | MapLoadForm(optional: Byte, filling: Byte, lhs: OperandForm, key: OperandForm, rhs: OperandForm)

  // With its debug position.
  datatype InsnForm = InsnForm(file: Int32, sLine: Int32, sCol: Int32, eLine: Int32, eCol: Int32, body: KindForm)

  predicate OkConst(c: ConstClass, f: ConstForm) {
    match c
    case BooleanClass => f.FlagForm?
    case NilClass => f.EmptyForm?
    case NoClass => false
    case _ => f.IndexForm?
  }

  predicate OkKind(pool: Pool, f: KindForm) {
    match f
    case StructureForm(_, _, fields) => |fields| < TWO_31 && forall x :: x in fields ==> OkField(x)
    case ConstLoadForm(typ, _, value) =>
      TypeTagCp(pool, typ).Some? && OkConst(ClassOf(TypeTagCp(pool, typ).value), value)
    case BinaryForm(kind, _, _, _) => 61 <= kind <= 71 || kind == 85
    case UnaryForm(kind, _, _) => kind == 81 || kind == 82
    case CallForm(_, _, _, args, _, _, _) => |args| < TWO_31
    case NewArrayForm(_, _, _, initial) => |initial| < TWO_31
    case _ => true
  }

  function KindByte(f: KindForm): Byte {
    match f
    case TypeDescForm(_, _) => 52
    case StructureForm(_, _, _) => 22
    case ConstLoadForm(_, _, _) => 21
    case GotoForm(_) => 1
    case ReturnForm => 4
    case BinaryForm(kind, _, _, _) => kind
    case UnaryForm(kind, _, _) => kind
    case CondBranchForm(_, _, _) => 3
    case MoveForm(_, _) => 20
    case CallForm(_, _, _, _, _, _, _) => 2
    case TypeCastForm(_, _, _, _) => 29
    case TypeTestForm(_, _, _) => 31
    case NewArrayForm(_, _, _, _) => 25
    case ArrayStoreForm(_, _, _) => 26
    case ArrayLoadForm(_, _, _, _, _) => 27
    case MapStoreForm(_, _, _) => 23
    case MapLoadForm(_, _, _, _, _) => 24
  }

  function ConstBytes(f: ConstForm): seq<Byte> {
    match f
    case IndexForm(i) => S4Bytes(i)
    case FlagForm(flag) => [flag]
    case EmptyForm => []
  }

  function ResultBytes(hasLhs: Byte, lhs: OperandForm): seq<Byte> {
    [hasLhs] + if hasLhs > 0 then OperandBytes(lhs) else []
  }

  function CallBytes(f: KindForm): seq<Byte>
    requires f.CallForm? && |f.args| < TWO_31
  {
    ([f.isVirtual] + S4Bytes(f.package) + S4Bytes(f.callee) + S4Bytes(|f.args|))
    + OperandsBytes(f.args) + ResultBytes(f.hasLhs, f.lhs) + S4Bytes(f.next)
  }

  function KindBytes(pool: Pool, f: KindForm): seq<Byte>
    requires OkKind(pool, f)
  {
    match f
    case TypeDescForm(lhs, typ) => OperandBytes(lhs) + S4Bytes(typ)
    case StructureForm(rhs, lhs, fields) => PairBytes(rhs, lhs) + S4Bytes(|fields|) + FieldsBytes(fields)
    case ConstLoadForm(typ, lhs, value) => S4Bytes(typ) + OperandBytes(lhs) + ConstBytes(value)
    case GotoForm(next) => S4Bytes(next)
    case ReturnForm => []
    case BinaryForm(_, rhs1, rhs2, lhs) => TripleBytes(rhs1, rhs2, lhs)
    case UnaryForm(_, rhs, lhs) => PairBytes(rhs, lhs)
    case CondBranchForm(cond, onTrue, onFalse) => OperandBytes(cond) + S4Bytes(onTrue) + S4Bytes(onFalse)
    case MoveForm(rhs, lhs) => PairBytes(rhs, lhs)
    case CallForm(_, _, _, _, _, _, _) => CallBytes(f)
    case TypeCastForm(lhs, rhs, typ, isCheckTypes) => PairBytes(lhs, rhs) + S4Bytes(typ) + [isCheckTypes]
    case TypeTestForm(typ, lhs, rhs) => S4Bytes(typ) + PairBytes(lhs, rhs)
    case NewArrayForm(typ, lhs, size, initial) =>
      S4Bytes(typ) + PairBytes(lhs, size) + S4Bytes(|initial|) + OperandsBytes(initial)
    case ArrayStoreForm(lhs, key, rhs) => TripleBytes(lhs, key, rhs)
    case ArrayLoadForm(optional, filling, lhs, key, rhs) => [optional] + [filling] + TripleBytes(lhs, key, rhs)
    case MapStoreForm(lhs, key, rhs) => TripleBytes(lhs, key, rhs)
    case MapLoadForm(optional, filling, lhs, key, rhs) => [optional] + [filling] + TripleBytes(lhs, key, rhs)
  }

  function ConstOf(pool: Pool, c: ConstClass, f: ConstForm): Option<Constant>
    requires OkConst(c, f)
  {
    match c
    case IntClass => (var v :- IntCp(pool, f.i); Some(IntConst(v)))
    case ByteClass => (var v :- ByteCp(pool, f.i); Some(ByteConst(v)))
    case BooleanClass => Some(BooleanConst(f.flag != 0))
    case FloatClass => (var v :- FloatCp(pool, f.i); Some(FloatConst(v)))
    case StringClass => (var v :- StringCp(pool, f.i); Some(StringConst(v)))
    case NilClass => Some(NilConst)
  }

  function ResultOf(pool: Pool, hasLhs: Byte, lhs: OperandForm): Option<Operand> {
    if hasLhs > 0 then OperandOf(pool, lhs) else Some(Operand([], 0))
  }

  function CallOf(pool: Pool, f: KindForm): Option<Terminator>
    requires f.CallForm?
  {
    var callee :- StringCp(pool, f.callee);
    var args :- OperandsOf(pool, f.args);
    var lhs :- ResultOf(pool, f.hasLhs, f.lhs);
    var next :- StringCp(pool, f.next);
    Some(Call(callee, args, lhs, next))
  }

  // What the constant c takes, in the entries of the pool and in the stream, for a
  // type of the given tag: an index of four bytes, one byte, or nothing.
  ghost predicate ConstAt(pool: Pool, tag: Byte, s: seq<Byte>, p: nat, c: Constant, next: nat) {
    match c
    case IntConst(n) =>
      (tag == 1 || tag == 4 || 39 <= tag <= 44) && IndexAt(pool, s, p, IntEntry(n)) && next == p + 4
    case ByteConst(b) => tag == 2 && IndexAt(pool, s, p, ByteEntry(b)) && next == p + 4
    case FloatConst(f) => tag == 3 && IndexAt(pool, s, p, FloatEntry(f)) && next == p + 4
    case StringConst(k) => (tag == 5 || tag == 45) && IndexAt(pool, s, p, StringEntry(k)) && next == p + 4
    case BooleanConst(b) => tag == 6 && (b <==> !At(s, p, [0])) && next == p + 1
    case NilConst => tag == 10 && next == p
  }

  // The four bytes at p are the index of this entry.
  ghost predicate IndexAt(pool: Pool, s: seq<Byte>, p: nat, e: Entry) {
    exists i: Int32 :: At(s, p, S4Bytes(i)) && 0 <= i < |pool| && pool[i] == e
  }

  lemma IndexIsRead(pool: Pool, s: seq<Byte>, p: nat, e: Entry)
    requires p + 4 <= |s|
    ensures IndexAt(pool, s, p, e) <==> EntryAt(pool, S4(s, p)) == Some(e)
  {
    hide S4, S4Bytes, At;
    S4IsWritten(s, p);
    forall i: Int32 | At(s, p, S4Bytes(i))
      ensures i == S4(s, p)
    {
      ReadsS4(s, p, i);
    }
  }

  lemma ByteIsWritten(s: seq<Byte>, p: nat)
    requires p < |s|
    ensures At(s, p, [0]) <==> U1(s, p) == 0
  {
    assert s[p..p + 1] == [s[p]];
  }

  // A constant is read exactly when it is there; otherwise reading aborts.
  lemma ConstIsReadIff(pool: Pool, tag: Byte, s: seq<Byte>, p: nat, c: Constant, next: nat)
    requires p + 4 <= |s|
    ensures ParseConst(pool, tag, s, p) == Got(c, next) <==> ConstAt(pool, tag, s, p, c, next)
  {
    hide S4, S4Bytes, At;
    match c
    case IntConst(n) => IndexIsRead(pool, s, p, IntEntry(n));
    case ByteConst(b) => IndexIsRead(pool, s, p, ByteEntry(b));
    case FloatConst(f) => IndexIsRead(pool, s, p, FloatEntry(f));
    case StringConst(k) => IndexIsRead(pool, s, p, StringEntry(k));
    case BooleanConst(b) => ByteIsWritten(s, p);
    case NilConst =>
  }

  // What an instruction contributes to its block; None when the pool lacks what it
  // mentions.
  function EffectOf(pool: Pool, f: KindForm): Option<Effect>
    requires OkKind(pool, f)
  {
    match f
    case TypeDescForm(lhs, _) => (var _ :- OperandOf(pool, lhs); Some(Nothing))
    case StructureForm(rhs, lhs, fields) =>
      (var _ :- OperandOf(pool, rhs);
       var l :- OperandOf(pool, lhs);
       var fs :- FieldsOf(pool, fields);
       Some(Adds(Structure(l, fs))))
    case ConstLoadForm(typ, lhs, value) =>
      (var l :- OperandOf(pool, lhs);
       var v :- ConstOf(pool, ClassOf(TypeTagCp(pool, typ).value), value);
       Some(Adds(ConstLoad(l, v))))
    case GotoForm(next) => (var id :- StringCp(pool, next); Some(Ends(Goto(id))))
    case ReturnForm => Some(Ends(Return))
    case BinaryForm(kind, rhs1, rhs2, lhs) =>
      (var x :- TripleOf(pool, rhs1, rhs2, lhs); Some(Adds(Binary(kind, x.2, x.0, x.1))))
    case UnaryForm(kind, rhs, lhs) => (var x :- PairOf(pool, rhs, lhs); Some(Adds(Unary(kind, x.1, x.0))))
    case CondBranchForm(cond, onTrue, onFalse) =>
      (var c :- OperandOf(pool, cond);
       var t :- StringCp(pool, onTrue);
       var e :- StringCp(pool, onFalse);
       Some(Ends(CondBranch(c, t, e))))
    case MoveForm(rhs, lhs) => (var x :- PairOf(pool, rhs, lhs); Some(Adds(Move(x.1, x.0))))
    case CallForm(_, _, _, _, _, _, _) => (var c :- CallOf(pool, f); Some(Ends(c)))
    case TypeCastForm(lhs, rhs, typ, _) =>
      (var x :- PairOf(pool, lhs, rhs); var _ :- TypeCp(pool, typ); Some(Adds(TypeCast(x.0, x.1))))
    case TypeTestForm(typ, lhs, rhs) =>
      (var _ :- TypeCp(pool, typ); var x :- PairOf(pool, lhs, rhs); Some(Adds(TypeTest(x.0))))
    case NewArrayForm(typ, lhs, size, initial) =>
      (var _ :- TypeCp(pool, typ);
       var x :- PairOf(pool, lhs, size);
       var _ :- OperandsOf(pool, initial);
       Some(Adds(NewArray(x.0, x.1))))
    case ArrayStoreForm(lhs, key, rhs) =>
      (var x :- TripleOf(pool, lhs, key, rhs); Some(Adds(ArrayStore(x.0, x.1, x.2))))
    case ArrayLoadForm(_, _, lhs, key, rhs) =>
      (var x :- TripleOf(pool, lhs, key, rhs); Some(Adds(ArrayLoad(x.0, x.1, x.2))))
    case MapStoreForm(lhs, key, rhs) => (var x :- TripleOf(pool, lhs, key, rhs); Some(Adds(MapStore(x.0, x.1, x.2))))
    case MapLoadForm(_, _, lhs, key, rhs) =>
      (var x :- TripleOf(pool, lhs, key, rhs); Some(Adds(MapLoad(x.0, x.1, x.2))))
  }

  lemma StructureRoundTrip(pool: Pool, f: KindForm, s: seq<Byte>, p: nat)
    requires f.StructureForm? && OkKind(pool, f) && At(s, p, KindBytes(pool, f))
    ensures Adding(ParseStructure(pool, s, p)) == Found(EffectOf(pool, f), p + |KindBytes(pool, f)|)
  {
    hide At, S4, S4Bytes, ParsePair, PairBytes, ParseFields, FieldsBytes, OperandOf, FieldsOf;
    Reads(s);
    var pair := PairBytes(f.rhs, f.lhs);
    Parts3(s, p, pair, S4Bytes(|f.fields|), FieldsBytes(f.fields));
    PairRoundTrip(pool, f.rhs, f.lhs, s, p);
    FieldsRoundTrip(pool, f.fields, s, p + |pair| + 4);
  }

  lemma ConstLoadRoundTrip(pool: Pool, f: KindForm, s: seq<Byte>, p: nat)
    requires f.ConstLoadForm? && OkKind(pool, f) && At(s, p, KindBytes(pool, f))
    ensures Adding(ParseConstLoad(pool, s, p)) == Found(EffectOf(pool, f), p + |KindBytes(pool, f)|)
  {
    hide At, U1, S4, S4Bytes, ParseOperand, OperandBytes, OperandOf, TypeTagCp, ClassOf;
    hide IntCp, ByteCp, FloatCp, StringCp;
    Reads(s);
    Parts3(s, p, S4Bytes(f.typ), OperandBytes(f.lhs), ConstBytes(f.value));
    OperandRoundTrip(pool, f.lhs, s, p + 4);
  }

  lemma CondBranchRoundTrip(pool: Pool, f: KindForm, s: seq<Byte>, p: nat)
    requires f.CondBranchForm? && At(s, p, KindBytes(pool, f))
    ensures Ending(ParseCondBranch(pool, s, p)) == Found(EffectOf(pool, f), p + |KindBytes(pool, f)|)
  {
    hide At, S4, S4Bytes, ParseOperand, OperandBytes, OperandOf, StringCp;
    Reads(s);
    Parts3(s, p, OperandBytes(f.cond), S4Bytes(f.onTrue), S4Bytes(f.onFalse));
    OperandRoundTrip(pool, f.cond, s, p);
  }

  lemma CallRoundTrip(pool: Pool, f: KindForm, s: seq<Byte>, p: nat)
    requires f.CallForm? && OkKind(pool, f) && At(s, p, CallBytes(f))
    ensures ParseCall(pool, s, p) == Found(CallOf(pool, f), p + |CallBytes(f)|)
  {
    hide At, U1, S4, S4Bytes, ParseOperand, ParseOperands, OperandBytes, OperandsBytes, OperandOf, OperandsOf, StringCp;
    Reads(s);
    var head := [f.isVirtual] + S4Bytes(f.package) + S4Bytes(f.callee) + S4Bytes(|f.args|);
    var args, lhs := OperandsBytes(f.args), if f.hasLhs > 0 then OperandBytes(f.lhs) else [];
    Parts4(s, p, head, args, [f.hasLhs] + lhs, S4Bytes(f.next));
    Parts4(s, p, [f.isVirtual], S4Bytes(f.package), S4Bytes(f.callee), S4Bytes(|f.args|));
    OperandsRoundTrip(pool, f.args, s, p + 13);
    Parts2(s, p + 13 + |args|, [f.hasLhs], lhs);
    if f.hasLhs > 0 {
      OperandRoundTrip(pool, f.lhs, s, p + 14 + |args|);
    }
  }

  lemma TypedRoundTrip(pool: Pool, f: KindForm, s: seq<Byte>, p: nat)
    requires (f.TypeCastForm? || f.TypeTestForm? || f.NewArrayForm?) && OkKind(pool, f) && At(s, p, KindBytes(pool, f))
    ensures ParseByKind(pool, KindByte(f), s, p) == Found(EffectOf(pool, f), p + |KindBytes(pool, f)|)
  {
    hide At, S4, S4Bytes, ParsePair, PairBytes, PairOf, ParseOperands, OperandsBytes, OperandsOf, TypeCp;
    Reads(s);
    match f
    case TypeCastForm(lhs, rhs, typ, isCheckTypes) =>
      Parts3(s, p, PairBytes(lhs, rhs), S4Bytes(typ), [isCheckTypes]);
      PairRoundTrip(pool, lhs, rhs, s, p);
    case TypeTestForm(typ, lhs, rhs) =>
      Parts2(s, p, S4Bytes(typ), PairBytes(lhs, rhs));
      PairRoundTrip(pool, lhs, rhs, s, p + 4);
    case NewArrayForm(typ, lhs, size, initial) =>
      Parts4(s, p, S4Bytes(typ), PairBytes(lhs, size), S4Bytes(|initial|), OperandsBytes(initial));
      PairRoundTrip(pool, lhs, size, s, p + 4);
      OperandsRoundTrip(pool, initial, s, p + 8 + |PairBytes(lhs, size)|);
  }

  predicate IsAccessForm(f: KindForm) {
    f.ArrayStoreForm? || f.ArrayLoadForm? || f.MapStoreForm? || f.MapLoadForm?
  }

  lemma AccessRoundTrip(pool: Pool, f: KindForm, s: seq<Byte>, p: nat)
    requires IsAccessForm(f) && At(s, p, KindBytes(pool, f))
    ensures Adding(ParseAccess(pool, KindByte(f), s, p)) == Found(EffectOf(pool, f), p + |KindBytes(pool, f)|)
  {
    hide At, ParseTriple, TripleBytes, TripleOf;
    if f.ArrayLoadForm? || f.MapLoadForm? {
      Parts3(s, p, [f.optional], [f.filling], TripleBytes(f.lhs, f.key, f.rhs));
      TripleRoundTrip(pool, f.lhs, f.key, f.rhs, s, p + 2);
    } else {
      TripleRoundTrip(pool, f.lhs, f.key, f.rhs, s, p);
    }
  }

  lemma TypeDescRoundTrip(pool: Pool, f: KindForm, s: seq<Byte>, p: nat)
    requires f.TypeDescForm? && At(s, p, KindBytes(pool, f))
    ensures ParseTypeDesc(pool, s, p) == Found(EffectOf(pool, f), p + |KindBytes(pool, f)|)
  {
    hide At, ParseOperand, OperandBytes, OperandOf;
    Parts2(s, p, OperandBytes(f.lhs), S4Bytes(f.typ));
    OperandRoundTrip(pool, f.lhs, s, p);
  }

  lemma KindRoundTrip(pool: Pool, f: KindForm, s: seq<Byte>, p: nat)
    requires OkKind(pool, f) && At(s, p, KindBytes(pool, f))
    ensures ParseByKind(pool, KindByte(f), s, p) == Found(EffectOf(pool, f), p + |KindBytes(pool, f)|)
  {
    hide At, S4, S4Bytes, ParseOperand, ParsePair, ParseTriple, OperandBytes, PairBytes, TripleBytes, OperandOf, PairOf,
      TripleOf, StringCp, TypeCp, ParseStructure, ParseConstLoad, ParseCondBranch, ParseCall, CallBytes, CallOf,
      ParseAccess, ParseTypeDesc;
    match f
    case TypeDescForm(_, _) => TypeDescRoundTrip(pool, f, s, p);
    case StructureForm(_, _, _) => StructureRoundTrip(pool, f, s, p);
    case ConstLoadForm(_, _, _) => ConstLoadRoundTrip(pool, f, s, p);
    case GotoForm(next) => ReadsS4(s, p, next);
    case ReturnForm =>
    case BinaryForm(_, rhs1, rhs2, lhs) => TripleRoundTrip(pool, rhs1, rhs2, lhs, s, p);
    case UnaryForm(_, rhs, lhs) => PairRoundTrip(pool, rhs, lhs, s, p);
    case CondBranchForm(_, _, _) => CondBranchRoundTrip(pool, f, s, p);
    case MoveForm(rhs, lhs) => PairRoundTrip(pool, rhs, lhs, s, p);
    case CallForm(_, _, _, _, _, _, _) => CallRoundTrip(pool, f, s, p);
    case TypeCastForm(_, _, _, _) => TypedRoundTrip(pool, f, s, p);
    case TypeTestForm(_, _, _) => TypedRoundTrip(pool, f, s, p);
    case NewArrayForm(_, _, _, _) => TypedRoundTrip(pool, f, s, p);
    case ArrayStoreForm(_, _, _) => AccessRoundTrip(pool, f, s, p);
    case ArrayLoadForm(_, _, _, _, _) => AccessRoundTrip(pool, f, s, p);
    case MapStoreForm(_, _, _) => AccessRoundTrip(pool, f, s, p);
    case MapLoadForm(_, _, _, _, _) => AccessRoundTrip(pool, f, s, p);
  }

  function InsnBytes(pool: Pool, f: InsnForm): seq<Byte>
    requires OkKind(pool, f.body)
  {
    (S4Bytes(f.file) + S4Bytes(f.sLine) + S4Bytes(f.sCol) + S4Bytes(f.eLine) + S4Bytes(f.eCol))
    + [KindByte(f.body)] + KindBytes(pool, f.body)
  }

  function InsnOf(pool: Pool, f: InsnForm): Option<Effect>
    requires OkKind(pool, f.body)
  {
    var _ :- StringCp(pool, f.file);
    EffectOf(pool, f.body)
  }

  lemma InsnRoundTrip(pool: Pool, f: InsnForm, s: seq<Byte>, p: nat)
    requires OkKind(pool, f.body) && At(s, p, InsnBytes(pool, f))
    ensures ParseInsn(pool, s, p) == Found(InsnOf(pool, f), p + |InsnBytes(pool, f)|)
  {
    hide At, U1, S4, S4Bytes, StringCp, ParseByKind, KindByte, KindBytes, EffectOf, OkKind;
    Reads(s);
    var at := S4Bytes(f.file) + S4Bytes(f.sLine) + S4Bytes(f.sCol) + S4Bytes(f.eLine) + S4Bytes(f.eCol);
    Parts3(s, p, at, [KindByte(f.body)], KindBytes(pool, f.body));
    Parts5(s, p, S4Bytes(f.file), S4Bytes(f.sLine), S4Bytes(f.sCol), S4Bytes(f.eLine), S4Bytes(f.eCol));
    KindRoundTrip(pool, f.body, s, p + 21);
  }

  // ----- Blocks -----

  datatype BlockForm = BlockForm(name: Int32, insns: seq<InsnForm>)

  predicate OkInsns(pool: Pool, fs: seq<InsnForm>) {
    forall f :: f in fs ==> OkKind(pool, f.body)
  }

  predicate OkBlock(pool: Pool, f: BlockForm) {
    |f.insns| < TWO_31 && OkInsns(pool, f.insns)
  }

  function InsnsBytes(pool: Pool, fs: seq<InsnForm>): seq<Byte>
    requires OkInsns(pool, fs)
  {
    if fs == [] then [] else InsnsBytes(pool, fs[..|fs| - 1]) + InsnBytes(pool, fs[|fs| - 1])
  }

  function CodeOf(pool: Pool, fs: seq<InsnForm>): Option<Code>
    requires OkInsns(pool, fs)
  {
    if fs == [] then Some(Code([], None))
    else
      var c :- CodeOf(pool, fs[..|fs| - 1]);
      var e :- InsnOf(pool, fs[|fs| - 1]);
      Some(Extended(c, e))
  }

  // The instructions that add something, in order, and the last that ends the block.
  function EffectsOf(pool: Pool, fs: seq<InsnForm>): Option<seq<Effect>>
    requires OkInsns(pool, fs)
  {
    if fs == [] then Some([])
    else
      var e :- InsnOf(pool, fs[0]);
      var rest :- EffectsOf(pool, fs[1..]);
      Some([e] + rest)
  }

  function Added(es: seq<Effect>): seq<Insn> {
    if es == [] then [] else (if es[0].Adds? then [es[0].i] else []) + Added(es[1..])
  }

  function LastEnd(es: seq<Effect>): Option<Terminator> {
    if es == [] then None
    else if LastEnd(es[1..]).Some? then LastEnd(es[1..])
    else if es[0].Ends? then Some(es[0].t)
    else None
  }

  lemma {:induction false} OneEffectMore(es: seq<Effect>, e: Effect)
    ensures Code(Added(es + [e]), LastEnd(es + [e])) == Extended(Code(Added(es), LastEnd(es)), e)
    decreases |es|
  {
    if es == [] {
      assert es + [e] == [e];
    } else {
      assert (es + [e])[1..] == es[1..] + [e];
      OneEffectMore(es[1..], e);
    }
  }

  lemma {:induction false} EffectsOfMore(pool: Pool, fs: seq<InsnForm>)
    requires OkInsns(pool, fs) && fs != []
    ensures var front, last := EffectsOf(pool, fs[..|fs| - 1]), InsnOf(pool, fs[|fs| - 1]);
      EffectsOf(pool, fs) == if front.Some? && last.Some? then Some(front.value + [last.value]) else None
    decreases |fs|
  {
    hide InsnOf, OkKind;
    if |fs| == 1 {
      assert fs[1..] == [] && fs[..0] == [];
      var last := InsnOf(pool, fs[0]);
      if last.Some? {
        assert [last.value] + [] == [] + [last.value];
      }
    } else {
      EffectsOfMore(pool, fs[1..]);
      assert fs[1..][..|fs| - 2] == fs[..|fs| - 1][1..];
      var front := EffectsOf(pool, fs[1..][..|fs| - 2]);
      var first, last := InsnOf(pool, fs[0]), InsnOf(pool, fs[|fs| - 1]);
      if first.Some? && front.Some? && last.Some? {
        assert [first.value] + (front.value + [last.value]) == [first.value] + front.value + [last.value];
      }
    }
  }

  // The code of a block is those instructions, and it ends as the last one says.
  lemma {:induction false} CodeIsInOrder(pool: Pool, fs: seq<InsnForm>)
    requires OkInsns(pool, fs)
    ensures var es := EffectsOf(pool, fs);
      CodeOf(pool, fs) == if es.Some? then Some(Code(Added(es.value), LastEnd(es.value))) else None
    decreases |fs|
  {
    hide InsnOf, OkKind;
    if fs != [] {
      var front := fs[..|fs| - 1];
      CodeIsInOrder(pool, front);
      EffectsOfMore(pool, fs);
      if EffectsOf(pool, fs).Some? {
        OneEffectMore(EffectsOf(pool, front).value, InsnOf(pool, fs[|fs| - 1]).value);
      }
    }
  }

  lemma {:induction false} InsnsRoundTrip(pool: Pool, fs: seq<InsnForm>, s: seq<Byte>, p: nat)
    requires OkInsns(pool, fs) && At(s, p, InsnsBytes(pool, fs))
    ensures ParseInsns(pool, s, p, |fs|) == Found(CodeOf(pool, fs), p + |InsnsBytes(pool, fs)|)
    decreases |fs|
  {
    hide At, ParseInsn, InsnBytes, InsnOf, Extended, OkKind;
    if fs != [] {
      var front, last := fs[..|fs| - 1], fs[|fs| - 1];
      Parts2(s, p, InsnsBytes(pool, front), InsnBytes(pool, last));
      InsnsRoundTrip(pool, front, s, p);
      InsnRoundTrip(pool, last, s, p + |InsnsBytes(pool, front)|);
    }
  }

  function BlockBytes(pool: Pool, f: BlockForm): seq<Byte>
    requires OkBlock(pool, f)
  {
    S4Bytes(f.name) + S4Bytes(|f.insns|) + InsnsBytes(pool, f.insns)
  }

  function BlockOf(pool: Pool, f: BlockForm): Option<BasicBlock>
    requires OkBlock(pool, f)
  {
    var id :- StringCp(pool, f.name);
    var c :- CodeOf(pool, f.insns);
    Some(BasicBlock(id, c))
  }

  lemma BlockRoundTrip(pool: Pool, f: BlockForm, s: seq<Byte>, p: nat)
    requires OkBlock(pool, f) && At(s, p, BlockBytes(pool, f))
    ensures ParseBlock(pool, s, p) == Found(BlockOf(pool, f), p + |BlockBytes(pool, f)|)
  {
    hide At, S4, S4Bytes, StringCp, ParseInsns, InsnsBytes, CodeOf, OkInsns;
    Reads(s);
    Parts3(s, p, S4Bytes(f.name), S4Bytes(|f.insns|), InsnsBytes(pool, f.insns));
    InsnsRoundTrip(pool, f.insns, s, p + 8);
  }
}

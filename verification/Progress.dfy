// When a matched package is stuck: only for want of a value.
module Progress {
  import opened TaggedValues
  import opened Ir
  import opened Bir
  import opened Lowering
  import opened Matching

  // ----- What a step reads -----

  function FieldReads(lhs: Operand, field: MapField): seq<Operand> {
    match field
    case SpreadField(expr) => [lhs, expr]
    case KeyValue(key, value) => [lhs, key, value]
  }

  function InsnReads(i: Insn): seq<Operand> {
    match i
    case Move(_, rhs) => [rhs]
    case Binary(_, _, rhs1, rhs2) => [rhs1, rhs2]
    case Unary(_, _, rhs) => [rhs]
    case ConstLoad(_, _) => []
    case TypeCast(_, rhs) => [rhs]
    case NewMap(_, _) => []
    case MapStore(lhs, key, rhs) => [lhs, key, rhs]
    case MapLoad(_, key, rhs) => [key, rhs]
    case FieldInit(lhs, field) => FieldReads(lhs, field)
  }

  // Returning from any function but main reads its return variable.
  function TermReads(f: Function, term: Terminator): seq<Operand> {
    match term
    case Goto(_) => []
    case CondBranch(cond, _, _) => [cond]
    case Call(_, args, _, _) => args
    case Return =>
      if !IsMain(f) && f.returnVar.Some? then [Operand(f.returnVar.value.name, ReturnKind)] else []
  }

  function NextReads(m: Store, rest: seq<Insn>, term: Terminator): seq<Operand> {
    if rest != [] then InsnReads(rest[0]) else TermReads(m.frame.fn, term)
  }

  predicate Unset(m: Store, ops: seq<Operand>) {
    exists i :: 0 <= i < |ops| && Read(m, ops[i]).None?
  }

  // The answer of an external function is not of the type it declares.
  predicate IllTypedAnswer(p: Package, env: Env, m: Store, rest: seq<Insn>, term: Terminator) {
    rest == [] && term.Call? &&
    var f, vs := FindFunction(p.functions, term.callee), ReadAll(m, term.args);
    f.Some? && f.value.isExternal && f.value.returnVar.Some? && vs.Some?
    && !HasTag(env.external(f.value.name, vs.value, m.trace), f.value.returnVar.value.tag)
  }

  lemma {:induction false} AllRead(m: Store, ops: seq<Operand>)
    ensures ReadAll(m, ops).None? <==> Unset(m, ops)
    decreases |ops|
  {
    if ops != [] {
      AllRead(m, ops[1..]);
      assert Unset(m, ops) <==> Read(m, ops[0]).None? || Unset(m, ops[1..]) by {
        assert forall i :: 0 < i < |ops| ==> ops[i] == ops[1..][i - 1];
        if Unset(m, ops[1..]) {
          var i :| 0 <= i < |ops[1..]| && Read(m, ops[1..][i]).None?;
          assert Read(m, ops[i + 1]).None?;
        }
      }
    }
  }

  // ----- Values have the type of their variables -----

  lemma TypedRead(p: Package, m: Store, im: IrStore, op: Operand, tag: TypeTag)
    requires StoreMatch(p, m, im) && Readable(p, m.frame.fn, op, tag) && Read(m, op).Some?
    ensures HasTag(Read(m, op).value, tag)
    ensures tag.MapTag? ==> IsMap(m, Read(m, op))
  {
    hide StoreMatch, Readable, Encodes;
    ReadMatch(p, m, im, op, tag);
  }

  lemma TypedOperator(ar: Arithmetic, kind: BinaryKind, lhsTag: TypeTag, tag: TypeTag, x: Val, y: Val)
    requires WfBinary(kind, lhsTag, tag) && HasTag(x, tag) && HasTag(y, tag)
    ensures !BinaryValue(ar, kind, x, y).Wrong?
  {
  }

  lemma TypedCast(ar: Arithmetic, lhsTag: TypeTag, rhsTag: TypeTag, x: Val)
    requires WfCast(lhsTag, rhsTag) && HasTag(x, rhsTag)
    ensures !CastValue(ar, lhsTag, x).Wrong?
  {
  }

  lemma InsnStuckIff(p: Package, env: Env, m: Store, im: IrStore, i: Insn, rest: seq<Insn>, term: Terminator)
    requires StoreMatch(p, m, im) && WfInsn(p, m.frame.fn, i)
    ensures ExecInsn(p, env, m, i, rest, term).Stuck? <==> Unset(m, InsnReads(i))
  {
    hide StoreMatch, TagOf, VarOf, IsMainResult, Read, BinaryValue, CastValue, WfBinary, WfCast, Write;
    var f := m.frame.fn;
    var ops := InsnReads(i);
    assert Unset(m, ops) <==>
      || (|ops| > 0 && Read(m, ops[0]).None?) || (|ops| > 1 && Read(m, ops[1]).None?)
      || (|ops| > 2 && Read(m, ops[2]).None?);
    if !Unset(m, ops) {
      match i
      case Binary(kind, lhs, rhs1, rhs2) =>
        var tag := TagOf(p, f, rhs1).value;
        TypedRead(p, m, im, rhs1, tag);
        TypedRead(p, m, im, rhs2, tag);
        TypedOperator(env.arith, kind, TagOf(p, f, lhs).value, tag, Read(m, rhs1).value, Read(m, rhs2).value);
      case Unary(op, lhs, rhs) => TypedRead(p, m, im, rhs, if op.Not? then BooleanTag else IntTag);
      case TypeCast(lhs, rhs) =>
        TypedRead(p, m, im, rhs, TagOf(p, f, rhs).value);
        TypedCast(env.arith, TagOf(p, f, lhs).value, TagOf(p, f, rhs).value, Read(m, rhs).value);
      case MapStore(lhs, key, rhs) => EntryTyped(p, m, im, lhs, key, rhs);
      case MapLoad(lhs, key, rhs) =>
        TypedRead(p, m, im, key, StringTag);
        TypedRead(p, m, im, rhs, MapTag);
      case FieldInit(lhs, SpreadField(expr)) =>
        TypedRead(p, m, im, lhs, MapTag);
        TypedRead(p, m, im, expr, MapTag);
      case FieldInit(lhs, KeyValue(key, value)) => EntryTyped(p, m, im, lhs, key, value);
      case _ =>
    }
  }

  lemma EntryTyped(p: Package, m: Store, im: IrStore, target: Operand, key: Operand, value: Operand)
    requires StoreMatch(p, m, im) && IntMap(p, m.frame.fn, target)
    requires Readable(p, m.frame.fn, key, StringTag) && Readable(p, m.frame.fn, value, IntTag)
    requires Read(m, target).Some? && Read(m, key).Some? && Read(m, value).Some?
    ensures StoreEntry(m, Read(m, target), Read(m, key), Read(m, value)).Some?
  {
    hide StoreMatch, Readable, Read;
    TypedRead(p, m, im, target, MapTag);
    TypedRead(p, m, im, key, StringTag);
    TypedRead(p, m, im, value, IntTag);
  }

  // ----- Terminators -----

  lemma JumpGoes(p: Package, m: Store, id: string)
    requires WfBody(p, m.frame.fn) && HasBlock(m.frame.fn, id)
    ensures Jump(m, id).Running?
  {
    hide WfBody, WfRest;
    BlockIsWf(p, m.frame.fn, id);
  }

  lemma FrameIsWf(p: Package, m: Store, im: IrStore)
    requires StoreMatch(p, m, im)
    ensures WfBody(p, m.frame.fn)
    ensures m.callers != [] ==>
      && !IsMain(m.frame.fn) && WfBody(p, m.callers[0].frame.fn)
      && HasBlock(m.callers[0].frame.fn, m.callers[0].next)
  {
    hide CellsMatch, MapsMatch, WfBody, LowerBody, HasBlock;
  }

  lemma CallStuckIff(p: Package, env: Env, m: Store, im: IrStore, callee: string, args: seq<Operand>, lhs: Operand,
                     next: string)
    requires WfPackage(p) && StoreMatch(p, m, im)
    requires WfTerm(p, m.frame.fn, Call(callee, args, lhs, next))
    ensures ExecTerm(p, env, m, Call(callee, args, lhs, next)).Stuck?
      <==> Unset(m, args) || IllTypedAnswer(p, env, m, [], Call(callee, args, lhs, next))
  {
    hide StoreMatch, WfBody, Jump, HasBlock, Unset, Bind, HasTag, ReadAll, Readable, TagOf;
    AllRead(m, args);
    FrameIsWf(p, m, im);
    var g := FindFunction(p.functions, callee).value;
    if ReadAll(m, args).Some? {
      var vs := ReadAll(m, args).value;
      if g.isExternal {
        var m' := m.(trace := m.trace + [ExternalCall(g.name, vs)]);
        JumpGoes(p, Write(m', lhs, env.external(g.name, vs, m.trace)), next);
      } else {
        CalleeGoes(p, m.(callers := [Caller(m.frame, lhs, next)] + m.callers), g, vs);
      }
    }
  }

  lemma CalleeGoes(p: Package, m: Store, g: Function, vs: seq<Val>)
    requires WfPackage(p) && g in p.functions && !g.isExternal
    ensures Enter(m, g, vs).Running?
  {
    hide WfBlock, Jump, Bind;
    var i :| 0 <= i < |p.functions| && p.functions[i] == g;
    assert WfFunction(p, p.functions[i]);
    JumpGoes(p, m.(frame := Frame(g, Bind(g.localVars, vs), ENTRY_BLOCK)), g.blocks[0].id);
  }

  lemma ReturnStuckIff(p: Package, m: Store, im: IrStore)
    requires StoreMatch(p, m, im)
    ensures ReturnFrom(m).Stuck? <==> Unset(m, TermReads(m.frame.fn, Return))
  {
    hide StoreMatch, Jump, HasBlock, WfBlock, Read, Write;
    FrameIsWf(p, m, im);
    var f := m.frame.fn;
    var ops := TermReads(f, Return);
    assert Unset(m, ops) <==> |ops| > 0 && Read(m, ops[0]).None?;
    if !IsMain(f) && m.callers != [] && Read(m, ops[0]).Some? {
      var c := m.callers[0];
      SameFunction(m.(frame := c.frame, callers := m.callers[1..]), c.dst, Read(m, ops[0]).value);
      JumpGoes(p, Write(m.(frame := c.frame, callers := m.callers[1..]), c.dst, Read(m, ops[0]).value), c.next);
    }
  }

  lemma TermStuckIff(p: Package, env: Env, m: Store, im: IrStore, term: Terminator)
    requires WfPackage(p) && StoreMatch(p, m, im) && WfTerm(p, m.frame.fn, term)
    ensures ExecTerm(p, env, m, term).Stuck?
      <==> Unset(m, TermReads(m.frame.fn, term)) || IllTypedAnswer(p, env, m, [], term)
  {
    hide StoreMatch, Jump, HasBlock, WfBody, Read, ReturnFrom, WfPackage, TagOf, IsMainResult;
    match term
    case Goto(next) =>
      FrameIsWf(p, m, im);
      JumpGoes(p, m, next);
    case CondBranch(cond, onTrue, onFalse) =>
      FrameIsWf(p, m, im);
      assert Unset(m, [cond]) <==> Read(m, [cond][0]).None?;
      if Read(m, cond).Some? {
        TypedRead(p, m, im, cond, BooleanTag);
        JumpGoes(p, m, if Read(m, cond).value.b then onTrue else onFalse);
      }
    case Call(callee, args, lhs, next) => CallStuckIff(p, env, m, im, callee, args, lhs, next);
    case Return => ReturnStuckIff(p, m, im);
  }

  // A package in a matched state is stuck next exactly when the step reads an unset
  // variable or an external function answers with a value not of its type: no
  // operator or cast gets a value it is not for, no block or function is missing,
  // and main returns to no caller.
  lemma StuckIff(p: Package, env: Env, m: Store, rest: seq<Insn>, term: Terminator, t: IrState)
    requires WfPackage(p) && Match(p, Running(m, rest, term), t)
    ensures Step(p, env, Running(m, rest, term)).Stuck?
      <==> Unset(m, NextReads(m, rest, term)) || IllTypedAnswer(p, env, m, rest, term)
  {
    hide StoreMatch, AtCode, WfInsn, WfTerm, ExecInsn, ExecTerm, Unset, InsnReads, TermReads, WfPackage;
    if rest != [] {
      assert WfInsn(p, m.frame.fn, rest[0]);
      InsnStuckIff(p, env, m, t.store, rest[0], rest[1..], term);
    } else {
      TermStuckIff(p, env, m, t.store, term);
    }
  }
}

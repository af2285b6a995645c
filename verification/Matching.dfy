// When a state of the emitted module stands for a state of the package, and what
// loads, stores and runtime calls do to two such states.
module Matching {
  import opened Options
  import opened Words
  import opened HashTable
  import opened TaggedValues
  import opened Ir
  import opened Bir
  import opened Lowering

  // ----- The relation -----

  function ToTagged(v: Val): Tagged
    requires v.IntV? || v.BoolV?
  {
    if v.IntV? then TaggedInt(v.n) else TaggedBool(v.b)
  }

  predicate AnyMatch(v: Val, iv: IrVal, heap: Heap) {
    (v.IntV? || v.BoolV?) && iv.Ptr? && Encodes(heap, iv.w, ToTagged(v))
  }

  // The content iv of a cell of the given static type stands for v.
  predicate ValMatch(tag: TypeTag, v: Val, iv: IrVal, heap: Heap, maps: nat) {
    if IsBalValue(tag) then AnyMatch(v, iv, heap)
    else HasTag(v, tag) && iv == ToIr(v) && (v.MapV? ==> v.loc < maps)
  }

  // Every declared variable has a cell, and the cell of each variable that has a
  // value, unless it is the hidden one, stands for that value.
  ghost predicate CellsMatch(vars: seq<Variable>, hidden: set<string>, vals: map<string, Val>,
                             cells: map<string, IrVal>, heap: Heap, maps: nat)
  {
    && (forall x :: FindVar(vars, x).Some? ==> x in cells)
    && (forall x :: x in vals ==> CellMatch(vars, hidden, vals, cells, heap, maps, x))
  }

  predicate CellMatch(vars: seq<Variable>, hidden: set<string>, vals: map<string, Val>,
                      cells: map<string, IrVal>, heap: Heap, maps: nat, x: string)
    requires x in vals
  {
    && FindVar(vars, x).Some?
    && (x in hidden || (x in cells && ValMatch(FindVar(vars, x).value.tag, vals[x], cells[x], heap, maps)))
  }

  function Hidden(f: Function): set<string> {
    if IsMain(f) && f.returnVar.Some? then {f.returnVar.value.name} else {}
  }

  ghost predicate FrameMatch(p: Package, fr: Frame, ifr: IrFrame, heap: Heap, maps: nat) {
    && fr.fn in p.functions && !fr.fn.isExternal && WfBody(p, fr.fn)
    && ifr.body == LowerBody(p, fr.fn) && ifr.block == fr.block
    && CellsMatch(fr.fn.localVars, Hidden(fr.fn), fr.vars, ifr.cells, heap, maps)
  }

  // The caller waits for a result of the type f returns; its code stores the
  // result and goes on to the next block.
  predicate Awaits(p: Package, f: Function, c: Caller, ic: IrCaller) {
    && !IsMain(f) && f.returnVar.Some?
    && TagOf(p, c.frame.fn, c.dst) == Some(f.returnVar.value.tag)
    && ic.pc + 2 <= |ic.code|
    && ic.code[ic.pc] == StoreTo(Tmp(ic.dst), RefOf(c.dst))
    && ic.code[ic.pc + 1] == Br(c.next)
    && HasBlock(c.frame.fn, c.next)
  }

  ghost predicate CallersMatch(p: Package, f: Function, cs: seq<Caller>, ics: seq<IrCaller>, heap: Heap, maps: nat)
    decreases |cs|
  {
    && |cs| == |ics|
    && (cs != [] ==>
          && Awaits(p, f, cs[0], ics[0])
          && FrameMatch(p, cs[0].frame, ics[0].frame, heap, maps)
          && CallersMatch(p, cs[0].frame.fn, cs[1..], ics[1..], heap, maps))
  }

  ghost predicate MapsMatch(maps: seq<map<Key, Int64>>, tables: seq<Table>) {
    && |maps| == |tables|
    && forall l :: 0 <= l < |tables| ==> Valid(tables[l]) && Contents(tables[l].slots) == maps[l]
  }

  ghost predicate StoreMatch(p: Package, m: Store, im: IrStore) {
    && FrameMatch(p, m.frame, im.frame, im.heap, |m.maps|)
    && CellsMatch(p.globals, {}, m.globals, im.globals, im.heap, |m.maps|)
    && CallersMatch(p, m.frame.fn, m.callers, im.callers, im.heap, |m.maps|)
    && MapsMatch(m.maps, im.tables)
    && m.trace == im.trace
  }

  // The code from pc on is that of the remaining instructions and the terminator.
  ghost predicate AtCode(p: Package, f: Function, rest: seq<Insn>, term: Terminator, code: seq<Instr>, pc: nat) {
    pc <= |code| && exists n: nat :: code[pc..] == Lowered(p, f, rest, Some(term), n)
  }

  predicate WfRest(p: Package, f: Function, rest: seq<Insn>, term: Terminator) {
    (forall i :: 0 <= i < |rest| ==> WfInsn(p, f, rest[i])) && WfTerm(p, f, term)
  }

  // A result has the representation of the declared type.
  predicate ResultMatch(r: Option<Returned>, iv: Option<IrVal>, heap: Heap) {
    match (r, iv)
    case (None, None) => true
    case (Some(x), Some(y)) =>
      if IsBalValue(x.tag) then AnyMatch(x.v, y, heap) else HasTag(x.v, x.tag) && y == ToIr(x.v)
    case _ => false
  }

  // A stuck package promises nothing.
  ghost predicate Match(p: Package, s: State, t: IrState) {
    match s
    case Running(m, rest, term) =>
      && t.IrRunning? && StoreMatch(p, m, t.store)
      && AtCode(p, m.frame.fn, rest, term, t.code, t.pc) && WfRest(p, m.frame.fn, rest, term)
    case Done(result, trace) => t.IrDone? && t.trace == trace && ResultMatch(result, t.result, t.heap)
    case Panicked(trace) => t == IrAborted(trace)
    case Stuck => true
  }

  // ----- Temporaries and growth do not matter -----

  lemma ScratchMatch(p: Package, m: Store, im: IrStore, tmps: map<nat, IrVal>, outs: map<nat, IrVal>)
    requires StoreMatch(p, m, im)
    ensures StoreMatch(p, m, im.(frame := im.frame.(tmps := tmps, outs := outs)))
  {
  }

  lemma ValMatchGrows(tag: TypeTag, v: Val, iv: IrVal, heap: Heap, maps: nat, heap': Heap, maps': nat)
    requires ValMatch(tag, v, iv, heap, maps) && Extends(heap, heap') && maps <= maps'
    ensures ValMatch(tag, v, iv, heap', maps')
  {
  }

  lemma CellsMatchGrows(vars: seq<Variable>, hidden: set<string>, vals: map<string, Val>,
                        cells: map<string, IrVal>, heap: Heap, maps: nat, heap': Heap, maps': nat)
    requires CellsMatch(vars, hidden, vals, cells, heap, maps) && Extends(heap, heap') && maps <= maps'
    ensures CellsMatch(vars, hidden, vals, cells, heap', maps')
  {
    forall x | x in vals
      ensures CellMatch(vars, hidden, vals, cells, heap', maps', x)
    {
      assert CellMatch(vars, hidden, vals, cells, heap, maps, x);
      if x !in hidden {
        ValMatchGrows(FindVar(vars, x).value.tag, vals[x], cells[x], heap, maps, heap', maps');
      }
    }
  }

  lemma FrameMatchGrows(p: Package, fr: Frame, ifr: IrFrame, heap: Heap, maps: nat, heap': Heap, maps': nat)
    requires FrameMatch(p, fr, ifr, heap, maps) && Extends(heap, heap') && maps <= maps'
    ensures FrameMatch(p, fr, ifr, heap', maps')
  {
    CellsMatchGrows(fr.fn.localVars, Hidden(fr.fn), fr.vars, ifr.cells, heap, maps, heap', maps');
  }

  lemma {:induction false} CallersMatchGrows(p: Package, f: Function, cs: seq<Caller>, ics: seq<IrCaller>,
                                             heap: Heap, maps: nat, heap': Heap, maps': nat)
    requires CallersMatch(p, f, cs, ics, heap, maps) && Extends(heap, heap') && maps <= maps'
    ensures CallersMatch(p, f, cs, ics, heap', maps')
    decreases |cs|
  {
    if cs != [] {
      FrameMatchGrows(p, cs[0].frame, ics[0].frame, heap, maps, heap', maps');
      CallersMatchGrows(p, cs[0].frame.fn, cs[1..], ics[1..], heap, maps, heap', maps');
    }
  }

  // Adding boxes to the heap, or changing the mappings and tables in step.
  lemma StoreMatchGrows(p: Package, m: Store, im: IrStore, maps: seq<map<Key, Int64>>, tables: seq<Table>, heap: Heap)
    requires StoreMatch(p, m, im) && MapsMatch(maps, tables)
    requires |m.maps| <= |maps| && Extends(im.heap, heap)
    ensures StoreMatch(p, m.(maps := maps), im.(tables := tables, heap := heap))
  {
    FrameMatchGrows(p, m.frame, im.frame, im.heap, |m.maps|, heap, |maps|);
    CellsMatchGrows(p.globals, {}, m.globals, im.globals, im.heap, |m.maps|, heap, |maps|);
    CallersMatchGrows(p, m.frame.fn, m.callers, im.callers, im.heap, |m.maps|, heap, |maps|);
  }

  // ----- Variables -----

  lemma CellWritten(vars: seq<Variable>, hidden: set<string>, vals: map<string, Val>,
                    cells: map<string, IrVal>, heap: Heap, maps: nat, x: string, v: Val, iv: IrVal)
    requires CellsMatch(vars, hidden, vals, cells, heap, maps) && FindVar(vars, x).Some?
    requires ValMatch(FindVar(vars, x).value.tag, v, iv, heap, maps)
    ensures CellsMatch(vars, hidden, vals[x := v], cells[x := iv], heap, maps)
  {
    var vals', cells' := vals[x := v], cells[x := iv];
    forall y | y in vals'
      ensures CellMatch(vars, hidden, vals', cells', heap, maps, y)
    {
      assert y != x ==> CellMatch(vars, hidden, vals, cells, heap, maps, y);
    }
  }

  // A variable that has a value has a cell that stands for it.
  lemma ReadMatch(p: Package, m: Store, im: IrStore, op: Operand, tag: TypeTag)
    requires StoreMatch(p, m, im) && Readable(p, m.frame.fn, op, tag) && Read(m, op).Some?
    ensures Fetch(im, RefOf(op)).Some?
    ensures ValMatch(tag, Read(m, op).value, Fetch(im, RefOf(op)).value, im.heap, |m.maps|)
  {
    hide WfBody, LowerBody, CallersMatch, MapsMatch;
    var f := m.frame.fn;
    if op.kind.GlobalKind? {
      assert CellMatch(p.globals, {}, m.globals, im.globals, im.heap, |m.maps|, op.name);
    } else {
      assert CellMatch(f.localVars, Hidden(f), m.frame.vars, im.frame.cells, im.heap, |m.maps|, op.name);
    }
  }

  lemma WriteMatch(p: Package, m: Store, im: IrStore, op: Operand, tag: TypeTag, v: Val, iv: IrVal)
    requires StoreMatch(p, m, im) && Writable(p, m.frame.fn, op, tag)
    requires ValMatch(tag, v, iv, im.heap, |m.maps|)
    ensures Fetch(im, RefOf(op)).Some?
    ensures StoreMatch(p, Write(m, op, v), Assign(im, RefOf(op), iv))
  {
    hide WfBody, LowerBody, ValMatch, CallersMatch, MapsMatch;
    var f := m.frame.fn;
    if op.kind.GlobalKind? {
      CellWritten(p.globals, {}, m.globals, im.globals, im.heap, |m.maps|, op.name, v, iv);
    } else {
      CellWritten(f.localVars, Hidden(f), m.frame.vars, im.frame.cells, im.heap, |m.maps|, op.name, v, iv);
    }
  }

  lemma SameFunction(m: Store, op: Operand, v: Val)
    ensures Write(m, op, v).frame.fn == m.frame.fn
  {
  }

  // The value of the hidden variable has no cell to match.
  lemma HiddenWrite(p: Package, m: Store, im: IrStore, op: Operand, v: Val)
    requires StoreMatch(p, m, im) && IsMainResult(m.frame.fn, op) && TagOf(p, m.frame.fn, op).Some?
    ensures StoreMatch(p, Write(m, op, v), im)
  {
    var f := m.frame.fn;
    var vals' := m.frame.vars[op.name := v];
    forall y | y in vals'
      ensures CellMatch(f.localVars, Hidden(f), vals', im.frame.cells, im.heap, |m.maps|, y)
    {
      assert y != op.name ==>
        CellMatch(f.localVars, Hidden(f), m.frame.vars, im.frame.cells, im.heap, |m.maps|, y);
    }
  }

  // ----- Code positions -----

  // Where the code of the next instruction is, and that the rest follows it.
  lemma NextInsn(p: Package, f: Function, rest: seq<Insn>, term: Terminator, code: seq<Instr>, pc: nat)
    returns (n: nat)
    requires AtCode(p, f, rest, term, code, pc) && rest != []
    ensures var a := LowerInsn(p, f, rest[0], n);
      && pc + |a| <= |code|
      && code[pc..pc + |a|] == a
      && code[pc + |a|..] == Lowered(p, f, rest[1..], Some(term), n + InsnTemps(p, f, rest[0]))
  {
    hide LowerInsn, InsnTemps;
    n :| code[pc..] == Lowered(p, f, rest, Some(term), n);
    var a := LowerInsn(p, f, rest[0], n);
    var k := Lowered(p, f, rest[1..], Some(term), n + InsnTemps(p, f, rest[0]));
    assert code[pc..] == a + k;
    assert code[pc..pc + |a|] == code[pc..][..|a|];
    assert code[pc + |a|..] == code[pc..][|a|..];
  }

  lemma NextTerm(p: Package, f: Function, term: Terminator, code: seq<Instr>, pc: nat) returns (n: nat)
    requires AtCode(p, f, [], term, code, pc)
    ensures pc + |LowerTerm(f, term, n)| == |code| && code[pc..] == LowerTerm(f, term, n)
  {
    hide LowerTerm;
    n :| code[pc..] == Lowered(p, f, [], Some(term), n);
  }

  lemma BlockIsWf(p: Package, f: Function, id: string)
    requires WfBody(p, f) && HasBlock(f, id)
    ensures var b := FindBlock(f.blocks, id).value;
      b.terminator.Some? && WfRest(p, f, b.insns, b.terminator.value)
  {
    hide WfInsn, WfTerm;
    var b := FindBlock(f.blocks, id).value;
    var i :| 0 <= i < |f.blocks| && f.blocks[i] == b;
    assert WfBlock(p, f, f.blocks[i]);
  }

  function InBlock(m: Store, id: string): Store {
    m.(frame := m.frame.(block := id))
  }

  function InIrBlock(im: IrStore, id: string): IrStore {
    im.(frame := im.frame.(block := id))
  }

  lemma BlockEntered(p: Package, m: Store, im: IrStore, id: string)
    requires StoreMatch(p, m, im)
    ensures StoreMatch(p, InBlock(m, id), InIrBlock(im, id))
  {
    hide CallersMatch, CellsMatch, MapsMatch, WfBody, LowerBody;
  }

  // Branching to a block of the function.
  lemma JumpMatch(p: Package, m: Store, im: IrStore, id: string)
    requires StoreMatch(p, m, im) && HasBlock(m.frame.fn, id)
    ensures Match(p, Jump(m, id), BranchTo(im, id))
  {
    hide WfInsn, WfTerm, CallersMatch, CellsMatch, MapsMatch;
    var f := m.frame.fn;
    var b := FindBlock(f.blocks, id).value;
    BlockIsWf(p, f, id);
    BlockEntered(p, m, im, id);
    hide WfBody, WfRest;
    LabelFindsBlock(p, f, f.blocks, id, 0);
    var k: nat :| FindLabel(LowerBlocks(p, f, f.blocks, 0), id) == Some(Lowered(p, f, b.insns, b.terminator, k));
    hide Lowered, LowerBlocks;
    var code := Lowered(p, f, b.insns, b.terminator, k);
    assert code[0..] == code;
    assert im.frame.body.blocks == LowerBlocks(p, f, f.blocks, 0);
    hide StoreMatch;
    assert BranchTo(im, id) == IrRunning(code, 0, InIrBlock(im, id));
    assert Jump(m, id) == Running(InBlock(m, id), b.insns, b.terminator.value);
  }
}

// The format of functions, every field of it, and the proof that reading inverts it.
module FunctionFormat {
  import opened Options
  import opened Words
  import opened Streams
  import opened ConstantPools
  import opened InsnReader
  import opened InsnFormat
  import opened FunctionReader

  // ----- Parameter names -----

  datatype NameForm = NameForm(name: Int32, flags: Int64)

  function NamesBytes(fs: seq<NameForm>): seq<Byte> {
    if fs == [] then []
    else NamesBytes(fs[..|fs| - 1]) + S4Bytes(fs[|fs| - 1].name) + S8Bytes(fs[|fs| - 1].flags)
  }

  function NamesOf(pool: Pool, fs: seq<NameForm>): Option<seq<seq<Byte>>> {
    if fs == [] then Some([])
    else
      var before :- NamesOf(pool, fs[..|fs| - 1]);
      var name :- StringCp(pool, fs[|fs| - 1].name);
      Some(before + [name])
  }

  lemma {:induction false} NamesRoundTrip(pool: Pool, fs: seq<NameForm>, s: seq<Byte>, p: nat)
    requires At(s, p, NamesBytes(fs))
    ensures ParseNames(pool, s, p, |fs|) == Found(NamesOf(pool, fs), p + |NamesBytes(fs)|)
    decreases |fs|
  {
    hide At, S4, S4Bytes, S8Bytes, StringCp;
    Reads(s);
    if fs != [] {
      var front, last := fs[..|fs| - 1], fs[|fs| - 1];
      Parts3(s, p, NamesBytes(front), S4Bytes(last.name), S8Bytes(last.flags));
      NamesRoundTrip(pool, front, s, p);
    }
  }

  // ----- Variables -----

  // The return variable, if the flag is not zero.
  datatype ReturnForm = ReturnForm(has: Byte, kind: Byte, typ: Int32, name: Int32)

  function ReturnBytes(f: ReturnForm): seq<Byte> {
    [f.has] + if f.has != 0 then [f.kind] + S4Bytes(f.typ) + S4Bytes(f.name) else []
  }

  function ReturnOf(pool: Pool, f: ReturnForm): Option<Option<VarDecl>> {
    if f.has == 0 then Some(None)
    else
      var typ :- TypeCp(pool, f.typ);
      var name :- StringCp(pool, f.name);
      Some(Some(VarDecl(name, typ, f.kind)))
  }

  lemma ReturnRoundTrip(pool: Pool, f: ReturnForm, s: seq<Byte>, p: nat)
    requires At(s, p, ReturnBytes(f))
    ensures ParseReturnVar(pool, s, p) == Found(ReturnOf(pool, f), p + |ReturnBytes(f)|)
  {
    hide At, U1, S4, S4Bytes, StringCp, TypeCp;
    Reads(s);
    Parts2(s, p, [f.has], if f.has != 0 then [f.kind] + S4Bytes(f.typ) + S4Bytes(f.name) else []);
    if f.has != 0 {
      Parts3(s, p + 1, [f.kind], S4Bytes(f.typ), S4Bytes(f.name));
    }
  }

  // The name of an argument's variable in the source is there for its kind only.
  datatype ParamForm = ParamForm(kind: Byte, typ: Int32, name: Int32, meta: Int32, hasDefault: Byte)

  function ParamBytes(f: ParamForm): seq<Byte> {
    [f.kind] + S4Bytes(f.typ) + S4Bytes(f.name) + (if f.kind == 2 then S4Bytes(f.meta) else [])
    + [f.hasDefault]
  }

  function ParamsBytes(fs: seq<ParamForm>): seq<Byte> {
    if fs == [] then [] else ParamsBytes(fs[..|fs| - 1]) + ParamBytes(fs[|fs| - 1])
  }

  // The k-th parameter has the k-th name of the queue.
  function ParamsOf(pool: Pool, names: seq<seq<Byte>>, fs: seq<ParamForm>): Option<seq<Param>> {
    if fs == [] then Some([])
    else
      var before :- ParamsOf(pool, names, fs[..|fs| - 1]);
      var typ :- TypeCp(pool, fs[|fs| - 1].typ);
      if |fs| > |names| then None else Some(before + [Param(names[|fs| - 1], typ)])
  }

  lemma {:induction false} ParamsRoundTrip(pool: Pool, names: seq<seq<Byte>>, fs: seq<ParamForm>, s: seq<Byte>, p: nat)
    requires At(s, p, ParamsBytes(fs))
    ensures ParseParams(pool, names, s, p, |fs|) == Found(ParamsOf(pool, names, fs), p + |ParamsBytes(fs)|)
    decreases |fs|
  {
    hide At, U1, S4, S4Bytes, TypeCp;
    Reads(s);
    if fs != [] {
      var front, last := fs[..|fs| - 1], fs[|fs| - 1];
      var q := p + |ParamsBytes(front)|;
      Parts2(s, p, ParamsBytes(front), ParamBytes(last));
      ParamsRoundTrip(pool, names, front, s, p);
      Parts5(s, q, [last.kind], S4Bytes(last.typ), S4Bytes(last.name),
             if last.kind == 2 then S4Bytes(last.meta) else [], [last.hasDefault]);
    }
  }

  // Four numbers say where a local variable lives; an argument has one.
  datatype LocalForm =
    LocalForm(kind: Byte, typ: Int32, name: Int32, meta: Int32, endBlock: Int32, startBlock: Int32, offset: Int32)

  function ScopeBytes(f: LocalForm): seq<Byte> {
    if f.kind == 2 then S4Bytes(f.meta)
    else if f.kind == 1 then
      S4Bytes(f.meta) + S4Bytes(f.endBlock) + S4Bytes(f.startBlock) + S4Bytes(f.offset)
    else []
  }

  function LocalBytes(f: LocalForm): seq<Byte> {
    [f.kind] + S4Bytes(f.typ) + S4Bytes(f.name) + ScopeBytes(f)
  }

  function LocalOf(pool: Pool, f: LocalForm): Option<VarDecl> {
    var typ :- TypeCp(pool, f.typ);
    var name :- StringCp(pool, f.name);
    Some(VarDecl(name, typ, f.kind))
  }

  lemma LocalRoundTrip(pool: Pool, f: LocalForm, s: seq<Byte>, p: nat)
    requires At(s, p, LocalBytes(f))
    ensures ParseLocal(pool, s, p) == Found(LocalOf(pool, f), p + |LocalBytes(f)|)
  {
    hide At, U1, S4, S4Bytes, StringCp, TypeCp;
    Reads(s);
    Parts4(s, p, [f.kind], S4Bytes(f.typ), S4Bytes(f.name), ScopeBytes(f));
  }

  function LocalsBytes(fs: seq<LocalForm>): seq<Byte> {
    if fs == [] then [] else LocalsBytes(fs[..|fs| - 1]) + LocalBytes(fs[|fs| - 1])
  }

  function LocalsOf(pool: Pool, fs: seq<LocalForm>): Option<seq<VarDecl>> {
    if fs == [] then Some([])
    else
      var before :- LocalsOf(pool, fs[..|fs| - 1]);
      var v :- LocalOf(pool, fs[|fs| - 1]);
      Some(before + [v])
  }

  lemma {:induction false} LocalsRoundTrip(pool: Pool, fs: seq<LocalForm>, s: seq<Byte>, p: nat)
    requires At(s, p, LocalsBytes(fs))
    ensures ParseLocals(pool, s, p, |fs|) == Found(LocalsOf(pool, fs), p + |LocalsBytes(fs)|)
    decreases |fs|
  {
    hide At, ParseLocal, LocalBytes, LocalOf;
    if fs != [] {
      var front, last := fs[..|fs| - 1], fs[|fs| - 1];
      Parts2(s, p, LocalsBytes(front), LocalBytes(last));
      LocalsRoundTrip(pool, front, s, p);
      LocalRoundTrip(pool, last, s, p + |LocalsBytes(front)|);
    }
  }

  // ----- Lists of blocks -----

  predicate OkBlocks(pool: Pool, fs: seq<BlockForm>) {
    |fs| < TWO_31 && forall f :: f in fs ==> OkBlock(pool, f)
  }

  function BlocksBytes(pool: Pool, fs: seq<BlockForm>): seq<Byte>
    requires OkBlocks(pool, fs)
  {
    if fs == [] then [] else BlocksBytes(pool, fs[..|fs| - 1]) + BlockBytes(pool, fs[|fs| - 1])
  }

  function BlocksOf(pool: Pool, fs: seq<BlockForm>): Option<seq<BasicBlock>>
    requires OkBlocks(pool, fs)
  {
    if fs == [] then Some([])
    else
      var before :- BlocksOf(pool, fs[..|fs| - 1]);
      var b :- BlockOf(pool, fs[|fs| - 1]);
      Some(before + [b])
  }

  lemma {:induction false} BlocksRoundTrip(pool: Pool, fs: seq<BlockForm>, s: seq<Byte>, p: nat)
    requires OkBlocks(pool, fs) && At(s, p, BlocksBytes(pool, fs))
    ensures ParseBlocks(pool, s, p, |fs|) == Found(BlocksOf(pool, fs), p + |BlocksBytes(pool, fs)|)
    decreases |fs|
  {
    hide At, ParseBlock, BlockBytes, BlockOf, OkBlock;
    if fs != [] {
      var front, last := fs[..|fs| - 1], fs[|fs| - 1];
      Parts2(s, p, BlocksBytes(pool, front), BlockBytes(pool, last));
      BlocksRoundTrip(pool, front, s, p);
      BlockRoundTrip(pool, last, s, p + |BlocksBytes(pool, front)|);
    }
  }

  // The blocks of default values, one list for each parameter.
  predicate OkDefaults(pool: Pool, fs: seq<seq<BlockForm>>) {
    forall f :: f in fs ==> OkBlocks(pool, f)
  }

  function DefaultsBytes(pool: Pool, fs: seq<seq<BlockForm>>): seq<Byte>
    requires OkDefaults(pool, fs)
  {
    if fs == [] then []
    else
      var last := fs[|fs| - 1];
      assert OkBlocks(pool, last);
      DefaultsBytes(pool, fs[..|fs| - 1]) + S4Bytes(|last|) + BlocksBytes(pool, last)
  }

  function DefaultsOf(pool: Pool, fs: seq<seq<BlockForm>>): Option<()>
    requires OkDefaults(pool, fs)
  {
    if fs == [] then Some(())
    else
      var _ :- DefaultsOf(pool, fs[..|fs| - 1]);
      var _ :- BlocksOf(pool, fs[|fs| - 1]);
      Some(())
  }

  lemma {:induction false} DefaultsRoundTrip(pool: Pool, fs: seq<seq<BlockForm>>, s: seq<Byte>, p: nat)
    requires OkDefaults(pool, fs) && At(s, p, DefaultsBytes(pool, fs))
    ensures ParseDefaults(pool, s, p, |fs|) == Found(DefaultsOf(pool, fs), p + |DefaultsBytes(pool, fs)|)
    decreases |fs|
  {
    hide At, S4, S4Bytes, ParseBlocks, BlocksBytes, BlocksOf;
    Reads(s);
    if fs != [] {
      var front, last := fs[..|fs| - 1], fs[|fs| - 1];
      assert OkBlocks(pool, last);
      Parts3(s, p, DefaultsBytes(pool, front), S4Bytes(|last|), BlocksBytes(pool, last));
      DefaultsRoundTrip(pool, front, s, p);
      BlocksRoundTrip(pool, last, s, p + |DefaultsBytes(pool, front)| + 4);
    }
  }

  // ----- Functions -----

  datatype HeaderForm = HeaderForm(
    file: Int32, sLine: Int32, sCol: Int32, eLine: Int32, eCol: Int32,
    name: Int32, worker: Int32, flags: Int64, origin: Byte, typ: Int32, annotations: seq<Byte>)

  function PositionBytes(f: HeaderForm): seq<Byte> {
    S4Bytes(f.file) + S4Bytes(f.sLine) + S4Bytes(f.sCol) + S4Bytes(f.eLine) + S4Bytes(f.eCol)
  }

  function HeaderBytes(f: HeaderForm): seq<Byte>
    requires |f.annotations| < TWO_31
  {
    PositionBytes(f) + (S4Bytes(f.name) + S4Bytes(f.worker) + S8Bytes(f.flags) + [f.origin] + S4Bytes(f.typ))
    + S8Bytes(|f.annotations|) + f.annotations
  }

  function HeaderOf(pool: Pool, f: HeaderForm): Option<Header> {
    var _ :- StringCp(pool, f.file);
    var name :- StringCp(pool, f.name);
    var worker :- StringCp(pool, f.worker);
    if InvocableTypeCp(pool, f.typ) then Some(Header(name, worker, Truncated(f.flags))) else None
  }

  lemma HeaderRoundTrip(pool: Pool, f: HeaderForm, s: seq<Byte>, p: nat)
    requires |f.annotations| < TWO_31 && At(s, p, HeaderBytes(f))
    ensures ParseHeader(pool, s, p) == Found(HeaderOf(pool, f), p + |HeaderBytes(f)|)
  {
    hide At, S4, S8, S4Bytes, S8Bytes, StringCp, InvocableTypeCp, Truncated;
    Reads(s);
    var position := PositionBytes(f);
    var names := S4Bytes(f.name) + S4Bytes(f.worker) + S8Bytes(f.flags) + [f.origin] + S4Bytes(f.typ);
    Parts4(s, p, position, names, S8Bytes(|f.annotations|), f.annotations);
    Parts5(s, p, S4Bytes(f.file), S4Bytes(f.sLine), S4Bytes(f.sCol), S4Bytes(f.eLine), S4Bytes(f.eCol));
    Parts5(s, p + 20, S4Bytes(f.name), S4Bytes(f.worker), S8Bytes(f.flags), [f.origin], S4Bytes(f.typ));
  }

  datatype FunctionForm = FunctionForm(
    header: HeaderForm, names: seq<NameForm>, tables: Tree, result: ReturnForm,
    params: seq<ParamForm>, locals: seq<LocalForm>,
    defaults: seq<seq<BlockForm>>, blocks: seq<BlockForm>, errorEntries: Int32, channels: Int32)

  predicate OkFunction(pool: Pool, f: FunctionForm) {
    && |f.header.annotations| < TWO_31 && |f.names| < TWO_31 && |f.params| < TWO_31 && |f.locals| < TWO_31
    && Conforms(TABLES, f.tables)
    && |f.defaults| == |f.params| && OkDefaults(pool, f.defaults) && OkBlocks(pool, f.blocks)
  }

  function SignatureBytes(f: FunctionForm): seq<Byte>
    requires |f.header.annotations| < TWO_31 && |f.names| < TWO_31 && Conforms(TABLES, f.tables)
  {
    HeaderBytes(f.header) + S4Bytes(|f.names|) + NamesBytes(f.names) + TreeBytes(TABLES, f.tables)
    + ReturnBytes(f.result)
  }

  function VariablesBytes(f: FunctionForm): seq<Byte>
    requires |f.params| < TWO_31 && |f.locals| < TWO_31
  {
    S4Bytes(|f.params|) + ParamsBytes(f.params) + S4Bytes(|f.locals|) + LocalsBytes(f.locals)
  }

  function CodeBytes(pool: Pool, f: FunctionForm): seq<Byte>
    requires OkDefaults(pool, f.defaults) && OkBlocks(pool, f.blocks)
  {
    DefaultsBytes(pool, f.defaults) + S4Bytes(|f.blocks|) + BlocksBytes(pool, f.blocks)
    + S4Bytes(f.errorEntries) + S4Bytes(f.channels)
  }

  function FunctionBytes(pool: Pool, f: FunctionForm): seq<Byte>
    requires OkFunction(pool, f)
  {
    SignatureBytes(f) + VariablesBytes(f) + CodeBytes(pool, f)
  }

  function SignatureOf(pool: Pool, f: FunctionForm): Option<Signature> {
    var h :- HeaderOf(pool, f.header);
    var names :- NamesOf(pool, f.names);
    var v :- ReturnOf(pool, f.result);
    Some(Signature(h, names, v))
  }

  function VariablesOf(pool: Pool, names: seq<seq<Byte>>, f: FunctionForm): Option<Variables> {
    var params :- ParamsOf(pool, names, f.params);
    var locals :- LocalsOf(pool, f.locals);
    Some(Variables(params, locals))
  }

  function BodyBlocksOf(pool: Pool, f: FunctionForm): Option<seq<BasicBlock>>
    requires OkDefaults(pool, f.defaults) && OkBlocks(pool, f.blocks)
  {
    var _ :- DefaultsOf(pool, f.defaults);
    BlocksOf(pool, f.blocks)
  }

  // The function a form stands for; None when the pool lacks what it mentions, or
  // there are more parameters than names.
  function FunctionOf(pool: Pool, f: FunctionForm): Option<Function>
    requires OkFunction(pool, f)
  {
    var sig :- SignatureOf(pool, f);
    var vars :- VariablesOf(pool, sig.names, f);
    var blocks :- BodyBlocksOf(pool, f);
    Some(Function(sig.header.name, sig.header.workerName, sig.header.flags, sig.returnVar, vars.params, vars.locals,
                  blocks))
  }

  lemma SignatureRoundTrip(pool: Pool, f: FunctionForm, s: seq<Byte>, p: nat)
    requires |f.header.annotations| < TWO_31 && |f.names| < TWO_31 && Conforms(TABLES, f.tables)
    requires At(s, p, SignatureBytes(f))
    ensures ParseSignature(pool, s, p) == Found(SignatureOf(pool, f), p + |SignatureBytes(f)|)
  {
    hide At, S4, S4Bytes, ParseHeader, HeaderBytes, HeaderOf, ParseNames, NamesBytes, NamesOf, Skip, TreeBytes,
      Conforms, ParseReturnVar, ReturnBytes, ReturnOf;
    Reads(s);
    var header, names, tables := HeaderBytes(f.header), NamesBytes(f.names), TreeBytes(TABLES, f.tables);
    Parts5(s, p, header, S4Bytes(|f.names|), names, tables, ReturnBytes(f.result));
    HeaderRoundTrip(pool, f.header, s, p);
    NamesRoundTrip(pool, f.names, s, p + |header| + 4);
    SkipRoundTrip(TABLES, f.tables, s, p + |header| + 4 + |names|);
    ReturnRoundTrip(pool, f.result, s, p + |header| + 4 + |names| + |tables|);
  }

  lemma VariablesRoundTrip(pool: Pool, names: seq<seq<Byte>>, f: FunctionForm, s: seq<Byte>, p: nat)
    requires |f.params| < TWO_31 && |f.locals| < TWO_31 && At(s, p, VariablesBytes(f))
    ensures ParseVariables(pool, names, s, p) == Found(VariablesOf(pool, names, f), p + |VariablesBytes(f)|)
  {
    hide At, S4, S4Bytes, ParseParams, ParamsBytes, ParamsOf, ParseLocals, LocalsBytes, LocalsOf;
    Reads(s);
    var params := ParamsBytes(f.params);
    Parts4(s, p, S4Bytes(|f.params|), params, S4Bytes(|f.locals|), LocalsBytes(f.locals));
    ParamsRoundTrip(pool, names, f.params, s, p + 4);
    LocalsRoundTrip(pool, f.locals, s, p + 8 + |params|);
  }

  lemma CodeRoundTrip(pool: Pool, f: FunctionForm, s: seq<Byte>, p: nat)
    requires OkDefaults(pool, f.defaults) && OkBlocks(pool, f.blocks) && At(s, p, CodeBytes(pool, f))
    ensures ParseCode(pool, s, p, |f.defaults|) == Found(BodyBlocksOf(pool, f), p + |CodeBytes(pool, f)|)
  {
    hide At, S4, S4Bytes, ParseDefaults, DefaultsBytes, DefaultsOf, OkDefaults, ParseBlocks, BlocksBytes, BlocksOf;
    Reads(s);
    var defaults := DefaultsBytes(pool, f.defaults);
    Parts5(s, p, defaults, S4Bytes(|f.blocks|), BlocksBytes(pool, f.blocks), S4Bytes(f.errorEntries),
           S4Bytes(f.channels));
    DefaultsRoundTrip(pool, f.defaults, s, p);
    BlocksRoundTrip(pool, f.blocks, s, p + |defaults| + 4);
  }

  lemma {:induction false} ParamsCount(pool: Pool, names: seq<seq<Byte>>, fs: seq<ParamForm>)
    requires ParamsOf(pool, names, fs).Some?
    ensures |ParamsOf(pool, names, fs).value| == |fs|
    decreases |fs|
  {
    if fs != [] {
      ParamsCount(pool, names, fs[..|fs| - 1]);
    }
  }

  // Reading the encoding of a function, wherever it is, gives the function and
  // stops at the next byte.
  lemma FunctionRoundTrip(pool: Pool, f: FunctionForm, front: seq<Byte>, rest: seq<Byte>)
    requires OkFunction(pool, f)
    ensures ParseFunction(pool, front + FunctionBytes(pool, f) + rest, |front|)
      == Found(FunctionOf(pool, f), |front| + |FunctionBytes(pool, f)|)
  {
    hide At, ParseSignature, SignatureBytes, SignatureOf, ParseVariables, VariablesBytes, ParseCode, CodeBytes,
      BodyBlocksOf, Conforms, OkDefaults, OkBlocks, ParamsOf, LocalsOf;
    var w := FunctionBytes(pool, f);
    var s, p := front + w + rest, |front|;
    Somewhere(front, w, rest);
    var sig, vars := SignatureBytes(f), VariablesBytes(f);
    Parts3(s, p, sig, vars, CodeBytes(pool, f));
    SignatureRoundTrip(pool, f, s, p);
    var signature := SignatureOf(pool, f);
    if signature.Some? {
      var names := signature.value.names;
      VariablesRoundTrip(pool, names, f, s, p + |sig|);
      if VariablesOf(pool, names, f).Some? {
        ParamsCount(pool, names, f.params);
        CodeRoundTrip(pool, f, s, p + |sig| + |vars|);
      }
    }
  }
}

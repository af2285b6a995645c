// Functions of a BIR file: how they are read, and which are read and dropped.
module FunctionReader {
  import opened Options
  import opened Words
  import opened Streams
  import opened ConstantPools
  import opened InsnReader

  datatype VarDecl = VarDecl(name: seq<Byte>, typ: TypeDecl, kind: Byte)

  datatype Param = Param(name: seq<Byte>, typ: TypeDecl)

  datatype Function = Function(
    name: seq<Byte>,
    workerName: seq<Byte>,
    flags: Int32,
    returnVar: Option<VarDecl>,
    requiredParams: seq<Param>,
    localVars: seq<VarDecl>,
    basicBlocks: seq<BasicBlock>)

  // ----- Functions that are ignored -----

  const IGNORED_NAMES: seq<string> := [".<init>", ".<start>", ".<stop>", "..<init>", "..<start>", "..<stop>"]

  function Ascii(s: string): (r: seq<Byte>)
    ensures |r| == |s|
  {
    seq<Byte>(|s|, i requires 0 <= i < |s| => s[i] as int % 256)
  }

  ghost predicate IsIgnored(name: seq<Byte>) {
    exists prefix :: prefix in IGNORED_NAMES && Ascii(prefix) <= name
  }

  method IgnoreFunction(name: seq<Byte>) returns (r: bool)
    ensures r <==> IsIgnored(name)
  {
    r := false;
    var i := 0;
    while i < |IGNORED_NAMES| && !r
      invariant i <= |IGNORED_NAMES|
      invariant r ==> IsIgnored(name)
      invariant !r ==> forall j :: 0 <= j < i ==> !(Ascii(IGNORED_NAMES[j]) <= name)
    {
      if Ascii(IGNORED_NAMES[i]) <= name {
        assert IGNORED_NAMES[i] in IGNORED_NAMES;
        r := true;
      }
      i := i + 1;
    }
  }

  // ----- Reading, as a function of the stream -----

  datatype Header = Header(name: seq<Byte>, workerName: seq<Byte>, flags: Int32)

  // The debug position, the names, the flags, the type, and the annotations.
  function ParseHeader(pool: Pool, s: seq<Byte>, p: nat): Parsed<Header> {
    var file, name, worker := StringCp(pool, S4(s, p)), StringCp(pool, S4(s, p + 20)), StringCp(pool, S4(s, p + 24));
    if file.None? || name.None? || worker.None? || !InvocableTypeCp(pool, S4(s, p + 37)) then Aborts
    else Got(Header(name.value, worker.value, Truncated(S8(s, p + 28))), Past(p + 49, S8(s, p + 41)))
  }

  function ParseNames(pool: Pool, s: seq<Byte>, p: nat, k: nat): Parsed<seq<seq<Byte>>> {
    if k == 0 then Got([], p)
    else
      var (before, q) :- ParseNames(pool, s, p, k - 1);
      var name := StringCp(pool, S4(s, q));
      if name.None? then Aborts else Got(before + [name.value], q + 12)
  }

  // The rest parameter, the receiver, the taint table, the documentation, the
  // global variables depended on, the scope table, and two lengths.
  const TABLES: Layout :=
    When(false, ONE_S4,
    When(false, Num(1, Num(4, ONE_S4)),
    Blob(true,
    Blob(false,
    Many(false, ONE_S4,
    Num(8,
    Many(false, Num(4, Num(4, When(false, ONE_S4, End))),
    Num(8, ONE_S4))))))))

  function ParseReturnVar(pool: Pool, s: seq<Byte>, p: nat): Parsed<Option<VarDecl>> {
    if U1(s, p) == 0 then Got(None, p + 1)
    else
      var typ, name := TypeCp(pool, S4(s, p + 2)), StringCp(pool, S4(s, p + 6));
      if typ.None? || name.None? then Aborts else Got(Some(VarDecl(name.value, typ.value, U1(s, p + 1))), p + 10)
  }

  // The k-th parameter takes the k-th name; there must be one.
  function ParseParams(pool: Pool, names: seq<seq<Byte>>, s: seq<Byte>, p: nat, k: nat): Parsed<seq<Param>> {
    if k == 0 then Got([], p)
    else
      var (before, q) :- ParseParams(pool, names, s, p, k - 1);
      var typ := TypeCp(pool, S4(s, q + 1));
      if k > |names| || typ.None? then Aborts
      else Got(before + [Param(names[k - 1], typ.value)], if U1(s, q) == ARG_VAR_KIND then q + 14 else q + 10)
  }

  function ParseLocal(pool: Pool, s: seq<Byte>, p: nat): Parsed<VarDecl> {
    var kind := U1(s, p);
    var typ, name := TypeCp(pool, S4(s, p + 1)), StringCp(pool, S4(s, p + 5));
    if typ.None? || name.None? then Aborts
    else
      Got(VarDecl(name.value, typ.value, kind),
          if kind == ARG_VAR_KIND then p + 13 else if kind == LOCAL_VAR_KIND then p + 25 else p + 9)
  }

  function ParseLocals(pool: Pool, s: seq<Byte>, p: nat, k: nat): Parsed<seq<VarDecl>> {
    if k == 0 then Got([], p)
    else
      var (before, q) :- ParseLocals(pool, s, p, k - 1);
      var (v, r) :- ParseLocal(pool, s, q);
      Got(before + [v], r)
  }

  function ParseBlocks(pool: Pool, s: seq<Byte>, p: nat, k: nat): Parsed<seq<BasicBlock>> {
    if k == 0 then Got([], p)
    else
      var (before, q) :- ParseBlocks(pool, s, p, k - 1);
      var (b, r) :- ParseBlock(pool, s, q);
      Got(before + [b], r)
  }

  // The blocks of the default values of k parameters, which are dropped.
  function ParseDefaults(pool: Pool, s: seq<Byte>, p: nat, k: nat): Parsed<()> {
    if k == 0 then Got((), p)
    else
      var (_, q) :- ParseDefaults(pool, s, p, k - 1);
      var (_, r) :- ParseBlocks(pool, s, q + 4, Count(S4(s, q)));
      Got((), r)
  }

  datatype Signature = Signature(header: Header, names: seq<seq<Byte>>, returnVar: Option<VarDecl>)

  function ParseSignature(pool: Pool, s: seq<Byte>, p: nat): Parsed<Signature> {
    var (h, q) :- ParseHeader(pool, s, p);
    var (names, r) :- ParseNames(pool, s, q + 4, Count(S4(s, q)));
    var u := Skip(TABLES, s, r);
    if u.None? then Aborts
    else
      var (v, w) :- ParseReturnVar(pool, s, u.value);
      Got(Signature(h, names, v), w)
  }

  datatype Variables = Variables(params: seq<Param>, locals: seq<VarDecl>)

  function ParseVariables(pool: Pool, names: seq<seq<Byte>>, s: seq<Byte>, p: nat): Parsed<Variables> {
    if S4(s, p) < 0 then Aborts
    else
      var (params, q) :- ParseParams(pool, names, s, p + 4, S4(s, p));
      if S4(s, q) < 0 then Aborts
      else
        var (locals, r) :- ParseLocals(pool, s, q + 4, S4(s, q));
        Got(Variables(params, locals), r)
  }

  // The dropped blocks, the blocks, and the two counts at the end.
  function ParseCode(pool: Pool, s: seq<Byte>, p: nat, params: nat): Parsed<seq<BasicBlock>> {
    var (_, q) :- ParseDefaults(pool, s, p, params);
    if S4(s, q) < 0 then Aborts
    else
      var (blocks, r) :- ParseBlocks(pool, s, q + 4, S4(s, q));
      Got(blocks, r + 8)
  }

  function ParseFunction(pool: Pool, s: seq<Byte>, p: nat): Parsed<Function> {
    var (sig, q) :- ParseSignature(pool, s, p);
    var (vars, r) :- ParseVariables(pool, sig.names, s, q);
    var (blocks, t) :- ParseCode(pool, s, r, |vars.params|);
    var h := sig.header;
    Got(Function(h.name, h.workerName, h.flags, sig.returnVar, vars.params, vars.locals, blocks), t)
  }

  // ----- The reader -----

  lemma {:induction false} NamesAbort(pool: Pool, s: seq<Byte>, p: nat, k: nat, n: nat)
    requires k <= n && ParseNames(pool, s, p, k).Aborts?
    ensures ParseNames(pool, s, p, n).Aborts?
    decreases n - k
  {
    if k < n {
      NamesAbort(pool, s, p, k + 1, n);
    }
  }

  lemma {:induction false} ParamsAbort(pool: Pool, names: seq<seq<Byte>>, s: seq<Byte>, p: nat, k: nat, n: nat)
    requires k <= n && ParseParams(pool, names, s, p, k).Aborts?
    ensures ParseParams(pool, names, s, p, n).Aborts?
    decreases n - k
  {
    if k < n {
      ParamsAbort(pool, names, s, p, k + 1, n);
    }
  }

  lemma {:induction false} LocalsAbort(pool: Pool, s: seq<Byte>, p: nat, k: nat, n: nat)
    requires k <= n && ParseLocals(pool, s, p, k).Aborts?
    ensures ParseLocals(pool, s, p, n).Aborts?
    decreases n - k
  {
    hide ParseLocal;
    if k < n {
      LocalsAbort(pool, s, p, k + 1, n);
    }
  }

  lemma {:induction false} BlocksAbort(pool: Pool, s: seq<Byte>, p: nat, k: nat, n: nat)
    requires k <= n && ParseBlocks(pool, s, p, k).Aborts?
    ensures ParseBlocks(pool, s, p, n).Aborts?
    decreases n - k
  {
    hide ParseBlock;
    if k < n {
      BlocksAbort(pool, s, p, k + 1, n);
    }
  }

  lemma {:induction false} DefaultsAbort(pool: Pool, s: seq<Byte>, p: nat, k: nat, n: nat)
    requires k <= n && ParseDefaults(pool, s, p, k).Aborts?
    ensures ParseDefaults(pool, s, p, n).Aborts?
    decreases n - k
  {
    hide ParseBlocks;
    if k < n {
      DefaultsAbort(pool, s, p, k + 1, n);
    }
  }

  method ReadHeader(reader: BirFileReader, cp: ConstantPoolSet) returns (r: Option<Header>)
    modifies reader
    ensures Agrees(r, reader.pos, ParseHeader(cp.poolEntries, reader.bytes, old(reader.pos)))
  {
    hide InvocableTypeCp, StringCp, S4, S8, Truncated;
    var sourceFileCpIndex := reader.ReadS4be();
    var sLine := reader.ReadS4be();
    var sCol := reader.ReadS4be();
    var eLine := reader.ReadS4be();
    var eCol := reader.ReadS4be();
    var nameCpIndex := reader.ReadS4be();
    var workerNameCpIndex := reader.ReadS4be();
    var flags := reader.ReadS8be();
    var origin := reader.ReadU1();
    var typeCpIndex := reader.ReadS4be();
    var file, name := StringCp(cp.poolEntries, sourceFileCpIndex), StringCp(cp.poolEntries, nameCpIndex);
    var worker := StringCp(cp.poolEntries, workerNameCpIndex);
    if file.None? || name.None? || worker.None? || !InvocableTypeCp(cp.poolEntries, typeCpIndex) {
      return None;
    }
    var annotationLength := reader.ReadS8be();
    reader.Ignore(annotationLength);
    return Some(Header(name.value, worker.value, Truncated(flags)));
  }

  // The names of the parameters, in a queue.
  method ReadNames(reader: BirFileReader, cp: ConstantPoolSet) returns (r: Option<seq<seq<Byte>>>)
    modifies reader
    ensures Agrees(r, reader.pos, ParseNames(cp.poolEntries, reader.bytes, old(reader.pos) + 4,
                                             Count(S4(reader.bytes, old(reader.pos)))))
  {
    ghost var pool := cp.poolEntries;
    var requiredParamCount := reader.ReadS4be();
    ghost var start := reader.pos;
    var functionParams: seq<seq<Byte>> := [];
    var i := 0;
    while i < requiredParamCount
      invariant 0 <= i <= Count(requiredParamCount)
      invariant ParseNames(pool, reader.bytes, start, i) == Got(functionParams, reader.pos)
    {
      var paramNameCpIndex := reader.ReadS4be();
      var name := StringCp(cp.poolEntries, paramNameCpIndex);
      if name.None? {
        assert ParseNames(pool, reader.bytes, start, i + 1).Aborts?;
        NamesAbort(pool, reader.bytes, start, i + 1, requiredParamCount);
        return None;
      }
      functionParams := functionParams + [name.value];
      var paramFlags := reader.ReadS8be();
      i := i + 1;
    }
    return Some(functionParams);
  }

  method ReadReturnVar(reader: BirFileReader, cp: ConstantPoolSet) returns (r: Option<Option<VarDecl>>)
    modifies reader
    ensures Agrees(r, reader.pos, ParseReturnVar(cp.poolEntries, reader.bytes, old(reader.pos)))
  {
    var hasReturnVar := reader.ReadU1();
    if hasReturnVar == 0 {
      return Some(None);
    }
    var kind := reader.ReadU1();
    var typeCpIndex := reader.ReadS4be();
    var typ := TypeCp(cp.poolEntries, typeCpIndex);
    var nameCpIndex := reader.ReadS4be();
    var name := StringCp(cp.poolEntries, nameCpIndex);
    return if typ.Some? && name.Some? then Some(Some(VarDecl(name.value, typ.value, kind))) else None;
  }

  // Each parameter takes the front of the queue.
  method ReadParams(reader: BirFileReader, cp: ConstantPoolSet, names: seq<seq<Byte>>, count: nat)
    returns (r: Option<seq<Param>>)
    modifies reader
    ensures Agrees(r, reader.pos, ParseParams(cp.poolEntries, names, reader.bytes, old(reader.pos), count))
  {
    hide TypeCp, S4, U1;
    ghost var pool, start := cp.poolEntries, reader.pos;
    var functionParams := names;
    var requiredParams: seq<Param> := [];
    var i := 0;
    while i < count
      invariant i <= count && i <= |names| && functionParams == names[i..]
      invariant ParseParams(pool, names, reader.bytes, start, i) == Got(requiredParams, reader.pos)
    {
      var kind := reader.ReadU1();
      var typeCpIndex := reader.ReadS4be();
      var typ := TypeCp(cp.poolEntries, typeCpIndex);
      if functionParams == [] || typ.None? {
        assert ParseParams(pool, names, reader.bytes, start, i + 1).Aborts?;
        ParamsAbort(pool, names, reader.bytes, start, i + 1, count);
        return None;
      }
      requiredParams := requiredParams + [Param(functionParams[0], typ.value)];
      functionParams := functionParams[1..];
      var nameCpIndex := reader.ReadS4be();
      if kind == ARG_VAR_KIND {
        var metaVarNameCpIndex := reader.ReadS4be();
      }
      var hasDefaultExpr := reader.ReadU1();
      i := i + 1;
    }
    return Some(requiredParams);
  }

  method ReadLocalVar(reader: BirFileReader, cp: ConstantPoolSet) returns (r: Option<VarDecl>)
    modifies reader
    ensures Agrees(r, reader.pos, ParseLocal(cp.poolEntries, reader.bytes, old(reader.pos)))
  {
    var kind := reader.ReadU1();
    var typeCpIndex := reader.ReadS4be();
    var typ := TypeCp(cp.poolEntries, typeCpIndex);
    var nameCpIndex := reader.ReadS4be();
    if kind == ARG_VAR_KIND {
      var metaVarNameCpIndex := reader.ReadS4be();
    } else if kind == LOCAL_VAR_KIND {
      var metaVarNameCpIndex := reader.ReadS4be();
      var endBbIdCpIndex := reader.ReadS4be();
      var startBbIdCpIndex := reader.ReadS4be();
      var instructionOffset := reader.ReadS4be();
    }
    var name := StringCp(cp.poolEntries, nameCpIndex);
    return if typ.Some? && name.Some? then Some(VarDecl(name.value, typ.value, kind)) else None;
  }

  method ReadLocals(reader: BirFileReader, cp: ConstantPoolSet, count: nat) returns (r: Option<seq<VarDecl>>)
    modifies reader
    ensures Agrees(r, reader.pos, ParseLocals(cp.poolEntries, reader.bytes, old(reader.pos), count))
  {
    hide ParseLocal;
    ghost var pool, start := cp.poolEntries, reader.pos;
    var localVars: seq<VarDecl> := [];
    var i := 0;
    while i < count
      invariant i <= count
      invariant ParseLocals(pool, reader.bytes, start, i) == Got(localVars, reader.pos)
    {
      var v := ReadLocalVar(reader, cp);
      if v.None? {
        assert ParseLocals(pool, reader.bytes, start, i + 1).Aborts?;
        LocalsAbort(pool, reader.bytes, start, i + 1, count);
        return None;
      }
      localVars := localVars + [v.value];
      i := i + 1;
    }
    return Some(localVars);
  }

  // Blocks read into a list, or read and dropped.
  method ReadBlocks(reader: BirFileReader, cp: ConstantPoolSet, list: BlockList, count: Int32, ignore: bool)
    returns (ok: bool)
    modifies reader, list
    ensures match ParseBlocks(cp.poolEntries, reader.bytes, old(reader.pos), Count(count))
      case Got(blocks, next) =>
        ok && reader.pos == next
        && list.basicBlocks == if ignore then old(list.basicBlocks) else old(list.basicBlocks) + blocks
      case Aborts => !ok
  {
    hide ParseBlock;
    ghost var pool, start := cp.poolEntries, reader.pos;
    ghost var blocks: seq<BasicBlock> := [];
    var i := 0;
    while i < count
      invariant 0 <= i <= Count(count)
      invariant ParseBlocks(pool, reader.bytes, start, i) == Got(blocks, reader.pos)
      invariant list.basicBlocks == if ignore then old(list.basicBlocks) else old(list.basicBlocks) + blocks
    {
      ghost var here := reader.pos;
      var more := list.ReadBasicBlock(reader, cp, ignore);
      if !more {
        assert ParseBlocks(pool, reader.bytes, start, i + 1).Aborts?;
        BlocksAbort(pool, reader.bytes, start, i + 1, count);
        return false;
      }
      blocks := blocks + [ParseBlock(pool, reader.bytes, here).value];
      i := i + 1;
    }
    return true;
  }

  method ReadDefaults(reader: BirFileReader, cp: ConstantPoolSet, list: BlockList, count: nat) returns (ok: bool)
    modifies reader, list
    ensures match ParseDefaults(cp.poolEntries, reader.bytes, old(reader.pos), count)
      case Got(_, next) => ok && reader.pos == next && list.basicBlocks == old(list.basicBlocks)
      case Aborts => !ok
  {
    hide ParseBlocks;
    ghost var pool, start := cp.poolEntries, reader.pos;
    var i := 0;
    while i < count
      invariant i <= count && list.basicBlocks == old(list.basicBlocks)
      invariant ParseDefaults(pool, reader.bytes, start, i) == Got((), reader.pos)
    {
      var defaultParameterBBCount := reader.ReadS4be();
      var more := ReadBlocks(reader, cp, list, defaultParameterBBCount, true);
      if !more {
        assert ParseDefaults(pool, reader.bytes, start, i + 1).Aborts?;
        DefaultsAbort(pool, reader.bytes, start, i + 1, count);
        return false;
      }
      i := i + 1;
    }
    return true;
  }

  method ReadSignature(reader: BirFileReader, cp: ConstantPoolSet) returns (r: Option<Signature>)
    modifies reader
    ensures Agrees(r, reader.pos, ParseSignature(cp.poolEntries, reader.bytes, old(reader.pos)))
  {
    hide ParseHeader, ParseNames, ParseReturnVar, Skip;
    var header := ReadHeader(reader, cp);
    if header.None? {
      return None;
    }
    var names := ReadNames(reader, cp);
    if names.None? {
      return None;
    }
    var ok := reader.ReadAndDrop(TABLES);
    if !ok {
      return None;
    }
    var returnVar := ReadReturnVar(reader, cp);
    return if returnVar.Some? then Some(Signature(header.value, names.value, returnVar.value)) else None;
  }

  method ReadVariables(reader: BirFileReader, cp: ConstantPoolSet, names: seq<seq<Byte>>) returns (r: Option<Variables>)
    modifies reader
    ensures Agrees(r, reader.pos, ParseVariables(cp.poolEntries, names, reader.bytes, old(reader.pos)))
  {
    hide ParseParams, ParseLocals;
    var paramsWithDefaults := reader.ReadS4be();
    if paramsWithDefaults < 0 {
      return None;
    }
    var params := ReadParams(reader, cp, names, paramsWithDefaults);
    if params.None? {
      return None;
    }
    var localVarCount := reader.ReadS4be();
    if localVarCount < 0 {
      return None;
    }
    var locals := ReadLocals(reader, cp, localVarCount);
    return if locals.Some? then Some(Variables(params.value, locals.value)) else None;
  }

  method ReadCode(reader: BirFileReader, cp: ConstantPoolSet, params: nat) returns (r: Option<seq<BasicBlock>>)
    modifies reader
    ensures Agrees(r, reader.pos, ParseCode(cp.poolEntries, reader.bytes, old(reader.pos), params))
  {
    hide ParseDefaults, ParseBlocks;
    var list := new BlockList();
    var ok := ReadDefaults(reader, cp, list, params);
    if !ok {
      return None;
    }
    var bbCount := reader.ReadS4be();
    if bbCount < 0 {
      return None;
    }
    ghost var blocks := ParseBlocks(cp.poolEntries, reader.bytes, reader.pos, bbCount);
    ok := ReadBlocks(reader, cp, list, bbCount, false);
    if !ok {
      return None;
    }
    assert [] + blocks.value == blocks.value;
    var errorEntriesCount := reader.ReadS4be();
    var channelsLength := reader.ReadS4be();
    return Some(list.basicBlocks);
  }

  // The functions of a package being read.
  class FunctionList {
    var functions: seq<Function>

    constructor ()
      ensures functions == []
    {
      functions := [];
    }

    // A function that is ignored, because the caller says so or because of its
    // name, is read all the same: the cursor ends at the same place and the list
    // is as before.
    method ReadFunction(reader: BirFileReader, cp: ConstantPoolSet, ignore: bool) returns (ok: bool)
      modifies this, reader
      ensures match ParseFunction(cp.poolEntries, reader.bytes, old(reader.pos))
        case Got(f, next) =>
          ok && reader.pos == next
          && functions == if ignore || IsIgnored(f.name) then old(functions) else old(functions) + [f]
        case Aborts => !ok
    {
      hide ParseSignature, ParseVariables, ParseCode, IsIgnored;
      var sig := ReadSignature(reader, cp);
      if sig.None? {
        return false;
      }
      var h := sig.value.header;
      var vars := ReadVariables(reader, cp, sig.value.names);
      if vars.None? {
        return false;
      }
      var blocks := ReadCode(reader, cp, |vars.value.params|);
      if blocks.None? {
        return false;
      }
      functions := functions + [Function(h.name, h.workerName, h.flags, sig.value.returnVar,
                                         vars.value.params, vars.value.locals, blocks.value)];
      var ignored := IgnoreFunction(h.name);
      if ignore || ignored {
        functions := functions[..|functions| - 1];
      }
      return true;
    }
  }
}

// The format of whole BIR files, and the proof that reading inverts it.
module PackageFormat {
  import opened Options
  import opened Words
  import opened Streams
  import opened ConstantPools
  import opened InsnReader
  import opened FunctionReader
  import opened FunctionFormat
  import opened PackageReader

  // ----- Global variables -----

  datatype GlobalForm =
    GlobalForm(kind: Byte, name: Int32, flags: Int64, origin: Byte, doc: seq<Byte>, typ: Int32)

  predicate OkGlobals(fs: seq<GlobalForm>) {
    |fs| < TWO_31 && forall f :: f in fs ==> |f.doc| < TWO_31
  }

  function GlobalBytes(f: GlobalForm): seq<Byte>
    requires |f.doc| < TWO_31
  {
    ([f.kind] + S4Bytes(f.name) + S8Bytes(f.flags) + [f.origin]) + S4Bytes(|f.doc|) + f.doc + S4Bytes(f.typ)
  }

  function GlobalOf(pool: Pool, f: GlobalForm): Option<VarDecl> {
    var typ :- TypeCp(pool, f.typ);
    var name :- StringCp(pool, f.name);
    Some(VarDecl(name, typ, f.kind))
  }

  lemma GlobalRoundTrip(pool: Pool, f: GlobalForm, s: seq<Byte>, p: nat)
    requires |f.doc| < TWO_31 && At(s, p, GlobalBytes(f))
    ensures ParseGlobal(pool, s, p) == Found(GlobalOf(pool, f), p + |GlobalBytes(f)|)
  {
    hide At, U1, S4, S4Bytes, S8Bytes, StringCp, TypeCp;
    Reads(s);
    var head := [f.kind] + S4Bytes(f.name) + S8Bytes(f.flags) + [f.origin];
    Parts4(s, p, head, S4Bytes(|f.doc|), f.doc, S4Bytes(f.typ));
    Parts4(s, p, [f.kind], S4Bytes(f.name), S8Bytes(f.flags), [f.origin]);
  }

  function GlobalsBytes(fs: seq<GlobalForm>): seq<Byte>
    requires OkGlobals(fs)
  {
    if fs == [] then [] else GlobalsBytes(fs[..|fs| - 1]) + GlobalBytes(fs[|fs| - 1])
  }

  function GlobalsOf(pool: Pool, fs: seq<GlobalForm>): Option<seq<VarDecl>> {
    if fs == [] then Some([])
    else
      var before :- GlobalsOf(pool, fs[..|fs| - 1]);
      var v :- GlobalOf(pool, fs[|fs| - 1]);
      Some(before + [v])
  }

  lemma {:induction false} GlobalsRoundTrip(pool: Pool, fs: seq<GlobalForm>, s: seq<Byte>, p: nat)
    requires OkGlobals(fs) && At(s, p, GlobalsBytes(fs))
    ensures ParseGlobals(pool, s, p, |fs|) == Found(GlobalsOf(pool, fs), p + |GlobalsBytes(fs)|)
    decreases |fs|
  {
    hide At, ParseGlobal, GlobalBytes, GlobalOf;
    if fs != [] {
      var front, last := fs[..|fs| - 1], fs[|fs| - 1];
      Parts2(s, p, GlobalsBytes(front), GlobalBytes(last));
      GlobalsRoundTrip(pool, front, s, p);
      GlobalRoundTrip(pool, last, s, p + |GlobalsBytes(front)|);
    }
  }

  // ----- Lists of functions -----

  predicate OkFunctions(pool: Pool, fs: seq<FunctionForm>) {
    |fs| < TWO_31 && forall f :: f in fs ==> OkFunction(pool, f)
  }

  function FunctionsBytes(pool: Pool, fs: seq<FunctionForm>): seq<Byte>
    requires OkFunctions(pool, fs)
  {
    if fs == [] then [] else FunctionsBytes(pool, fs[..|fs| - 1]) + FunctionBytes(pool, fs[|fs| - 1])
  }

  // Those that are not ignored.
  ghost function FunctionsOf(pool: Pool, fs: seq<FunctionForm>): Option<seq<Function>>
    requires OkFunctions(pool, fs)
  {
    if fs == [] then Some([])
    else
      var before :- FunctionsOf(pool, fs[..|fs| - 1]);
      var f :- FunctionOf(pool, fs[|fs| - 1]);
      Some(if IsIgnored(f.name) then before else before + [f])
  }

  lemma FunctionAt(pool: Pool, f: FunctionForm, s: seq<Byte>, p: nat)
    requires OkFunction(pool, f) && At(s, p, FunctionBytes(pool, f))
    ensures ParseFunction(pool, s, p) == Found(FunctionOf(pool, f), p + |FunctionBytes(pool, f)|)
  {
    hide ParseFunction, FunctionOf, FunctionBytes, OkFunction;
    var w := FunctionBytes(pool, f);
    assert s == s[..p] + w + s[p + |w|..];
    FunctionRoundTrip(pool, f, s[..p], s[p + |w|..]);
  }

  lemma {:induction false} FunctionsRoundTrip(pool: Pool, fs: seq<FunctionForm>, s: seq<Byte>, p: nat)
    requires OkFunctions(pool, fs) && At(s, p, FunctionsBytes(pool, fs))
    ensures ParseFunctions(pool, s, p, |fs|) == Found(FunctionsOf(pool, fs), p + |FunctionsBytes(pool, fs)|)
    decreases |fs|
  {
    hide At, ParseFunction, FunctionBytes, FunctionOf, OkFunction, IsIgnored;
    if fs != [] {
      var front, last := fs[..|fs| - 1], fs[|fs| - 1];
      Parts2(s, p, FunctionsBytes(pool, front), FunctionBytes(pool, last));
      FunctionsRoundTrip(pool, front, s, p);
      FunctionAt(pool, last, s, p + |FunctionsBytes(pool, front)|);
    }
  }

  // ----- Bodies of type definitions -----

  datatype TypeForm = TypeForm(attached: seq<FunctionForm>, referenced: seq<Int32>)

  predicate OkType(pool: Pool, f: TypeForm) {
    OkFunctions(pool, f.attached) && |f.referenced| < TWO_31
  }

  function TypeBytes(pool: Pool, f: TypeForm): seq<Byte>
    requires OkType(pool, f)
  {
    S4Bytes(|f.attached|) + FunctionsBytes(pool, f.attached) + S4Bytes(|f.referenced|) + Int32sBytes(f.referenced)
  }

  // The attached functions must be readable, and are dropped.
  ghost function TypeOf(pool: Pool, f: TypeForm): Option<()>
    requires OkType(pool, f)
  {
    var _ :- FunctionsOf(pool, f.attached);
    Some(())
  }

  lemma TypeRoundTrip(pool: Pool, f: TypeForm, s: seq<Byte>, p: nat)
    requires OkType(pool, f) && At(s, p, TypeBytes(pool, f))
    ensures ParseTypeBody(pool, s, p) == Found(TypeOf(pool, f), p + |TypeBytes(pool, f)|)
  {
    hide At, S4, S4Bytes, ParseFunctions, FunctionsBytes, FunctionsOf, OkFunction, Int32sBytes;
    Reads(s);
    var functions := FunctionsBytes(pool, f.attached);
    Parts4(s, p, S4Bytes(|f.attached|), functions, S4Bytes(|f.referenced|), Int32sBytes(f.referenced));
    FunctionsRoundTrip(pool, f.attached, s, p + 4);
  }

  predicate OkTypes(pool: Pool, fs: seq<TypeForm>) {
    |fs| < TWO_31 && forall f :: f in fs ==> OkType(pool, f)
  }

  function TypesBytes(pool: Pool, fs: seq<TypeForm>): seq<Byte>
    requires OkTypes(pool, fs)
  {
    if fs == [] then [] else TypesBytes(pool, fs[..|fs| - 1]) + TypeBytes(pool, fs[|fs| - 1])
  }

  ghost function TypesOf(pool: Pool, fs: seq<TypeForm>): Option<()>
    requires OkTypes(pool, fs)
  {
    if fs == [] then Some(())
    else
      var _ :- TypesOf(pool, fs[..|fs| - 1]);
      var _ :- TypeOf(pool, fs[|fs| - 1]);
      Some(())
  }

  lemma {:induction false} TypesRoundTrip(pool: Pool, fs: seq<TypeForm>, s: seq<Byte>, p: nat)
    requires OkTypes(pool, fs) && At(s, p, TypesBytes(pool, fs))
    ensures ParseTypeBodies(pool, s, p, |fs|) == Found(TypesOf(pool, fs), p + |TypesBytes(pool, fs)|)
    decreases |fs|
  {
    hide At, ParseTypeBody, TypeBytes, TypeOf, OkType;
    if fs != [] {
      var front, last := fs[..|fs| - 1], fs[|fs| - 1];
      Parts2(s, p, TypesBytes(pool, front), TypeBytes(pool, last));
      TypesRoundTrip(pool, front, s, p);
      TypeRoundTrip(pool, last, s, p + |TypesBytes(pool, front)|);
    }
  }

  // ----- Modules -----

  // The imports take twelve bytes each; `count` says how many there are.
  datatype ModuleForm = ModuleForm(
    id: Int32, count: Int32, imports: seq<Byte>, definitions: Tree, globals: seq<GlobalForm>,
    types: seq<TypeForm>, functions: seq<FunctionForm>)

  predicate OkDefinitions(f: ModuleForm) {
    && f.count >= 0 && |f.imports| == 12 * f.count && |f.imports| < TWO_31
    && Conforms(DEFINITIONS, f.definitions) && OkGlobals(f.globals)
  }

  predicate OkModule(pool: Pool, f: ModuleForm) {
    OkDefinitions(f) && OkTypes(pool, f.types) && OkFunctions(pool, f.functions)
  }

  function DefinitionsBytes(f: ModuleForm): seq<Byte>
    requires OkDefinitions(f)
  {
    S4Bytes(f.id) + (S4Bytes(f.count) + f.imports) + TreeBytes(DEFINITIONS, f.definitions)
    + S4Bytes(|f.globals|) + GlobalsBytes(f.globals)
  }

  function BodiesBytes(pool: Pool, f: ModuleForm): seq<Byte>
    requires OkModule(pool, f)
  {
    S4Bytes(|f.types|) + TypesBytes(pool, f.types) + S4Bytes(|f.functions|) + FunctionsBytes(pool, f.functions)
  }

  function ModuleBytes(pool: Pool, f: ModuleForm): seq<Byte>
    requires OkModule(pool, f)
  {
    DefinitionsBytes(f) + BodiesBytes(pool, f)
  }

  function DefinitionsOf(pool: Pool, f: ModuleForm): Option<Definitions> {
    var id :- IdentityCp(pool, f.id);
    var vars :- GlobalsOf(pool, f.globals);
    Some(Definitions(id, vars))
  }

  ghost function BodiesOf(pool: Pool, f: ModuleForm): Option<seq<Function>>
    requires OkModule(pool, f)
  {
    var _ :- TypesOf(pool, f.types);
    FunctionsOf(pool, f.functions)
  }

  // The package a module stands for; None when the pool lacks what it mentions.
  ghost function PackageOf(pool: Pool, f: ModuleForm): Option<Package>
    requires OkModule(pool, f)
  {
    var defs :- DefinitionsOf(pool, f);
    var functions :- BodiesOf(pool, f);
    Some(Package(defs.id, defs.globalVars, functions))
  }

  lemma DefinitionsRoundTrip(pool: Pool, f: ModuleForm, s: seq<Byte>, p: nat)
    requires OkDefinitions(f) && At(s, p, DefinitionsBytes(f))
    ensures ParseDefinitions(pool, s, p) == Found(DefinitionsOf(pool, f), p + |DefinitionsBytes(f)|)
  {
    hide At, S4, S4Bytes, IdentityCp, Skip, TreeBytes, Conforms, ParseGlobals, GlobalsBytes, GlobalsOf;
    Reads(s);
    var imports, tree := S4Bytes(f.count) + f.imports, TreeBytes(DEFINITIONS, f.definitions);
    Parts5(s, p, S4Bytes(f.id), imports, tree, S4Bytes(|f.globals|), GlobalsBytes(f.globals));
    Parts2(s, p + 4, S4Bytes(f.count), f.imports);
    SkipRoundTrip(DEFINITIONS, f.definitions, s, p + 4 + |imports|);
    GlobalsRoundTrip(pool, f.globals, s, p + 4 + |imports| + |tree| + 4);
  }

  lemma BodiesRoundTrip(pool: Pool, f: ModuleForm, s: seq<Byte>, p: nat)
    requires OkModule(pool, f) && At(s, p, BodiesBytes(pool, f))
    ensures ParseBodies(pool, s, p) == Found(BodiesOf(pool, f), p + |BodiesBytes(pool, f)|)
  {
    hide At, S4, S4Bytes, ParseTypeBodies, TypesBytes, TypesOf, OkType, ParseFunctions, FunctionsBytes, FunctionsOf,
      OkFunction, OkDefinitions;
    Reads(s);
    var types := TypesBytes(pool, f.types);
    Parts4(s, p, S4Bytes(|f.types|), types, S4Bytes(|f.functions|), FunctionsBytes(pool, f.functions));
    TypesRoundTrip(pool, f.types, s, p + 4);
    FunctionsRoundTrip(pool, f.functions, s, p + 8 + |types|);
  }

  lemma ModuleRoundTrip(pool: Pool, f: ModuleForm, s: seq<Byte>, p: nat)
    requires OkModule(pool, f) && At(s, p, ModuleBytes(pool, f))
    ensures ParseModule(pool, s, p) == Found(PackageOf(pool, f), p + |ModuleBytes(pool, f)|)
  {
    hide At, ParseDefinitions, DefinitionsBytes, DefinitionsOf, ParseBodies, BodiesBytes, BodiesOf, OkDefinitions,
      OkTypes, OkFunctions;
    Parts2(s, p, DefinitionsBytes(f), BodiesBytes(pool, f));
    DefinitionsRoundTrip(pool, f, s, p);
    BodiesRoundTrip(pool, f, s, p + |DefinitionsBytes(f)|);
  }

  // ----- Files -----

  datatype FileForm = FileForm(pool: seq<EntryForm>, body: ModuleForm)

  predicate OkPool(fs: seq<EntryForm>) {
    |fs| < TWO_31 && forall f :: f in fs ==> OkEntry(f)
  }

  predicate OkFile(f: FileForm) {
    OkPool(f.pool) && OkModule(EntriesOf(f.pool), f.body)
  }

  function FileBytes(f: FileForm): seq<Byte>
    requires OkFile(f)
  {
    S4Bytes(|f.pool|) + PoolBytes(f.pool) + ModuleBytes(EntriesOf(f.pool), f.body)
  }

  // Reading the encoding of a file, whatever follows it, gives the package it stands
  // for.
  lemma FileRoundTrip(f: FileForm, rest: seq<Byte>)
    requires OkFile(f)
    ensures ParseFile(FileBytes(f) + rest) == Found(PackageOf(EntriesOf(f.pool), f.body), |FileBytes(f)|)
  {
    hide At, ParsePool, PoolBytes, ParseModule, ModuleBytes, PackageOf, OkModule, OkEntry, EntriesOf;
    var s, pool := FileBytes(f) + rest, EntriesOf(f.pool);
    var w, m := S4Bytes(|f.pool|) + PoolBytes(f.pool), ModuleBytes(EntriesOf(f.pool), f.body);
    assert s == [] + w + (m + rest);
    PoolRoundTrip(f.pool, [], m + rest);
    Somewhere(w, m, rest);
    ModuleRoundTrip(pool, f.body, s, |w|);
  }
}

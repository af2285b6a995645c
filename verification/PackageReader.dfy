// Whole BIR files: the constant pool, then the module with its global variables and
// functions. Imports, constants, type definitions and the functions attached to
// types are read and dropped.
module PackageReader {
  import opened Options
  import opened Words
  import opened Streams
  import opened ConstantPools
  import opened InsnReader
  import opened FunctionReader

  datatype Identity = Identity(org: seq<Byte>, name: seq<Byte>, version: seq<Byte>)

  datatype Package = Package(id: Identity, globalVars: seq<VarDecl>, functions: seq<Function>)

  // ----- Reading, as a function of the stream -----

  // An entry of another kind leaves the three names empty.
  function IdentityCp(pool: Pool, i: Int32): Option<Identity> {
    var e :- EntryAt(pool, i);
    if !e.PackageEntry? then Some(Identity([], [], []))
    else
      var org :- StringCp(pool, e.org);
      var name :- StringCp(pool, e.name);
      var version :- StringCp(pool, e.version);
      Some(Identity(org, name, version))
  }

  // Three strings for a package entry, nothing for any other.
  lemma IdentityIsFoundIff(pool: Pool, i: Int32, id: Identity)
    ensures IdentityCp(pool, i) == Some(id) <==>
      && 0 <= i < |pool|
      && match pool[i]
         case PackageEntry(org, name, version) =>
           && 0 <= org < |pool| && pool[org] == StringEntry(id.org)
           && 0 <= name < |pool| && pool[name] == StringEntry(id.name)
           && 0 <= version < |pool| && pool[version] == StringEntry(id.version)
         case _ => id == Identity([], [], [])
  {
  }

  const IMPORT_SIZE: int := 12

  // The size of the imports is a product of 32 bits.
  function SkipImports(s: seq<Byte>, p: nat): Option<nat> {
    var size := S4(s, p) * IMPORT_SIZE;
    if -TWO_31 <= size < TWO_31 then Some(Past(p + 4, size)) else None
  }

  // A constant: name, flags, origin, position, documentation, type, value.
  const CONSTANT: Layout := Num(4, Num(8, Num(1, Num(20, Blob(false, Num(4, Blob(true, End)))))))

  // A type definition: position, name, flags, label, origin, documentation,
  // annotations, type.
  const TYPE_DEFINITION: Layout :=
    Num(20, Num(4, Num(8, Num(1, Num(1, Blob(false, Blob(true, ONE_S4)))))))

  const DEFINITIONS: Layout := Many(false, CONSTANT, Many(false, TYPE_DEFINITION, End))

  function ParseGlobal(pool: Pool, s: seq<Byte>, p: nat): Parsed<VarDecl> {
    var q := Past(p + 18, S4(s, p + 14));
    var typ, name := TypeCp(pool, S4(s, q)), StringCp(pool, S4(s, p + 1));
    if typ.None? || name.None? then Aborts else Got(VarDecl(name.value, typ.value, U1(s, p)), q + 4)
  }

  function ParseGlobals(pool: Pool, s: seq<Byte>, p: nat, k: nat): Parsed<seq<VarDecl>> {
    if k == 0 then Got([], p)
    else
      var (before, q) :- ParseGlobals(pool, s, p, k - 1);
      var (v, r) :- ParseGlobal(pool, s, q);
      Got(before + [v], r)
  }

  // The functions that are not ignored.
  ghost function ParseFunctions(pool: Pool, s: seq<Byte>, p: nat, k: nat): Parsed<seq<Function>> {
    if k == 0 then Got([], p)
    else
      var (before, q) :- ParseFunctions(pool, s, p, k - 1);
      var (f, r) :- ParseFunction(pool, s, q);
      Got(if IsIgnored(f.name) then before else before + [f], r)
  }

  // The functions attached to a type, and the types it refers to.
  ghost function ParseTypeBody(pool: Pool, s: seq<Byte>, p: nat): Parsed<()> {
    var (_, q) :- ParseFunctions(pool, s, p + 4, Count(S4(s, p)));
    Got((), q + 4 + 4 * Count(S4(s, q)))
  }

  ghost function ParseTypeBodies(pool: Pool, s: seq<Byte>, p: nat, k: nat): Parsed<()> {
    if k == 0 then Got((), p)
    else
      var (_, q) :- ParseTypeBodies(pool, s, p, k - 1);
      var (_, r) :- ParseTypeBody(pool, s, q);
      Got((), r)
  }

  datatype Definitions = Definitions(id: Identity, globalVars: seq<VarDecl>)

  // The module up to its global variables.
  function ParseDefinitions(pool: Pool, s: seq<Byte>, p: nat): Parsed<Definitions> {
    var id := IdentityCp(pool, S4(s, p));
    var q := SkipImports(s, p + 4);
    if id.None? || q.None? then Aborts
    else
      var r := Skip(DEFINITIONS, s, q.value);
      if r.None? || S4(s, r.value) < 0 then Aborts
      else
        var (vars, t) :- ParseGlobals(pool, s, r.value + 4, S4(s, r.value));
        Got(Definitions(id.value, vars), t)
  }

  // What follows them.
  ghost function ParseBodies(pool: Pool, s: seq<Byte>, p: nat): Parsed<seq<Function>> {
    var (_, q) :- ParseTypeBodies(pool, s, p + 4, Count(S4(s, p)));
    if S4(s, q) < 0 then Aborts else ParseFunctions(pool, s, q + 4, S4(s, q))
  }

  ghost function ParseModule(pool: Pool, s: seq<Byte>, p: nat): Parsed<Package> {
    var (defs, q) :- ParseDefinitions(pool, s, p);
    var (functions, r) :- ParseBodies(pool, s, q);
    Got(Package(defs.id, defs.globalVars, functions), r)
  }

  ghost function ParseFile(s: seq<Byte>): Parsed<Package> {
    var (pool, p) :- ParsePool(s, 0);
    ParseModule(pool, s, p)
  }

  // ----- The reader -----

  lemma {:induction false} GlobalsAbort(pool: Pool, s: seq<Byte>, p: nat, k: nat, n: nat)
    requires k <= n && ParseGlobals(pool, s, p, k).Aborts?
    ensures ParseGlobals(pool, s, p, n).Aborts?
    decreases n - k
  {
    hide ParseGlobal;
    if k < n {
      GlobalsAbort(pool, s, p, k + 1, n);
    }
  }

  lemma {:induction false} FunctionsAbort(pool: Pool, s: seq<Byte>, p: nat, k: nat, n: nat)
    requires k <= n && ParseFunctions(pool, s, p, k).Aborts?
    ensures ParseFunctions(pool, s, p, n).Aborts?
    decreases n - k
  {
    hide ParseFunction, IsIgnored;
    if k < n {
      FunctionsAbort(pool, s, p, k + 1, n);
    }
  }

  lemma {:induction false} TypeBodiesAbort(pool: Pool, s: seq<Byte>, p: nat, k: nat, n: nat)
    requires k <= n && ParseTypeBodies(pool, s, p, k).Aborts?
    ensures ParseTypeBodies(pool, s, p, n).Aborts?
    decreases n - k
  {
    hide ParseTypeBody;
    if k < n {
      TypeBodiesAbort(pool, s, p, k + 1, n);
    }
  }

  // A package being read.
  class PackageBuilder {
    var id: Identity
    var globalVars: seq<VarDecl>
    const list: FunctionList

    constructor ()
      ensures fresh(list) && id == Identity([], [], []) && globalVars == [] && list.functions == []
    {
      id, globalVars := Identity([], [], []), [];
      list := new FunctionList();
    }

    method ReadGlobalVar(reader: BirFileReader, cp: ConstantPoolSet) returns (ok: bool)
      modifies this, reader
      ensures id == old(id)
      ensures match ParseGlobal(cp.poolEntries, reader.bytes, old(reader.pos))
        case Got(v, next) => ok && reader.pos == next && globalVars == old(globalVars) + [v]
        case Aborts => !ok
    {
      var kind := reader.ReadU1();
      var varDclNameCpIndex := reader.ReadS4be();
      var flags := reader.ReadS8be();
      var origin := reader.ReadU1();
      var docLength := reader.ReadS4be();
      reader.Ignore(docLength);
      var typeCpIndex := reader.ReadS4be();
      var typ, name := TypeCp(cp.poolEntries, typeCpIndex), StringCp(cp.poolEntries, varDclNameCpIndex);
      if typ.None? || name.None? {
        return false;
      }
      globalVars := globalVars + [VarDecl(name.value, typ.value, kind)];
      return true;
    }

    method ReadGlobalVars(reader: BirFileReader, cp: ConstantPoolSet, count: nat) returns (ok: bool)
      requires globalVars == []
      modifies this, reader
      ensures id == old(id)
      ensures match ParseGlobals(cp.poolEntries, reader.bytes, old(reader.pos), count)
        case Got(vars, next) => ok && reader.pos == next && globalVars == vars
        case Aborts => !ok
    {
      hide ParseGlobal;
      ghost var pool, start := cp.poolEntries, reader.pos;
      var i := 0;
      while i < count
        invariant i <= count && id == old(id)
        invariant ParseGlobals(pool, reader.bytes, start, i) == Got(globalVars, reader.pos)
      {
        var more := ReadGlobalVar(reader, cp);
        if !more {
          assert ParseGlobals(pool, reader.bytes, start, i + 1).Aborts?;
          GlobalsAbort(pool, reader.bytes, start, i + 1, count);
          return false;
        }
        i := i + 1;
      }
      return true;
    }

    method ReadDefinitions(reader: BirFileReader, cp: ConstantPoolSet) returns (ok: bool)
      requires globalVars == []
      modifies this, reader
      ensures match ParseDefinitions(cp.poolEntries, reader.bytes, old(reader.pos))
        case Got(defs, next) => ok && reader.pos == next && id == defs.id && globalVars == defs.globalVars
        case Aborts => !ok
    {
      hide ParseGlobals, IdentityCp, Skip;
      var idCpIndex := reader.ReadS4be();
      var identity := IdentityCp(cp.poolEntries, idCpIndex);
      var importCount := reader.ReadS4be();
      var importSize := importCount * IMPORT_SIZE;
      if identity.None? || !(-TWO_31 <= importSize < TWO_31) {
        return false;
      }
      id := identity.value;
      reader.Ignore(importSize);
      var dropped := reader.ReadAndDrop(DEFINITIONS);
      if !dropped {
        return false;
      }
      var globalVarCount := reader.ReadS4be();
      if globalVarCount < 0 {
        return false;
      }
      ok := ReadGlobalVars(reader, cp, globalVarCount);
    }

    // Functions read into the list, or read and dropped.
    method ReadFunctions(reader: BirFileReader, cp: ConstantPoolSet, count: Int32, ignore: bool) returns (ok: bool)
      modifies list, reader
      ensures match ParseFunctions(cp.poolEntries, reader.bytes, old(reader.pos), Count(count))
        case Got(functions, next) =>
          ok && reader.pos == next
          && list.functions == if ignore then old(list.functions) else old(list.functions) + functions
        case Aborts => !ok
    {
      hide ParseFunction, IsIgnored;
      ghost var pool, start := cp.poolEntries, reader.pos;
      ghost var functions: seq<Function> := [];
      var i := 0;
      while i < count
        invariant 0 <= i <= Count(count)
        invariant ParseFunctions(pool, reader.bytes, start, i) == Got(functions, reader.pos)
        invariant list.functions == if ignore then old(list.functions) else old(list.functions) + functions
      {
        ghost var here := reader.pos;
        var more := list.ReadFunction(reader, cp, ignore);
        if !more {
          assert ParseFunctions(pool, reader.bytes, start, i + 1).Aborts?;
          FunctionsAbort(pool, reader.bytes, start, i + 1, count);
          return false;
        }
        functions := ParseFunctions(pool, reader.bytes, start, i + 1).value;
        i := i + 1;
      }
      return true;
    }

    method ReadTypeBody(reader: BirFileReader, cp: ConstantPoolSet) returns (ok: bool)
      modifies list, reader
      ensures match ParseTypeBody(cp.poolEntries, reader.bytes, old(reader.pos))
        case Got(_, next) => ok && reader.pos == next && list.functions == old(list.functions)
        case Aborts => !ok
    {
      hide ParseFunctions;
      var attachedFunctionsCount := reader.ReadS4be();
      ok := ReadFunctions(reader, cp, attachedFunctionsCount, true);
      if !ok {
        return;
      }
      var referencedTypesCount := reader.ReadS4be();
      ghost var start := reader.pos;
      var j := 0;
      while j < referencedTypesCount
        invariant 0 <= j <= Count(referencedTypesCount) && reader.pos == start + 4 * j
        invariant list.functions == old(list.functions)
      {
        var referencedType := reader.ReadS4be();
        j := j + 1;
      }
    }

    method ReadTypeBodies(reader: BirFileReader, cp: ConstantPoolSet, count: Int32) returns (ok: bool)
      modifies list, reader
      ensures match ParseTypeBodies(cp.poolEntries, reader.bytes, old(reader.pos), Count(count))
        case Got(_, next) => ok && reader.pos == next && list.functions == old(list.functions)
        case Aborts => !ok
    {
      hide ParseTypeBody;
      ghost var pool, start := cp.poolEntries, reader.pos;
      var i := 0;
      while i < count
        invariant 0 <= i <= Count(count) && list.functions == old(list.functions)
        invariant ParseTypeBodies(pool, reader.bytes, start, i) == Got((), reader.pos)
      {
        var more := ReadTypeBody(reader, cp);
        if !more {
          assert ParseTypeBodies(pool, reader.bytes, start, i + 1).Aborts?;
          TypeBodiesAbort(pool, reader.bytes, start, i + 1, count);
          return false;
        }
        i := i + 1;
      }
      return true;
    }

    method ReadModule(reader: BirFileReader, cp: ConstantPoolSet) returns (r: Option<Package>)
      requires globalVars == [] && list.functions == []
      modifies this, list, reader
      ensures Agrees(r, reader.pos, ParseModule(cp.poolEntries, reader.bytes, old(reader.pos)))
    {
      hide ParseDefinitions, ParseTypeBodies, ParseFunctions;
      var ok := ReadDefinitions(reader, cp);
      if !ok {
        return None;
      }
      var typeDefinitionBodiesCount := reader.ReadS4be();
      ok := ReadTypeBodies(reader, cp, typeDefinitionBodiesCount);
      if !ok {
        return None;
      }
      var functionCount := reader.ReadS4be();
      if functionCount < 0 {
        return None;
      }
      ghost var functions := ParseFunctions(cp.poolEntries, reader.bytes, reader.pos, functionCount);
      ok := ReadFunctions(reader, cp, functionCount, false);
      if !ok {
        return None;
      }
      assert [] + functions.value == functions.value;
      return Some(Package(id, globalVars, list.functions));
    }
  }

  // The whole file.
  method Deserialize(bytes: seq<Byte>) returns (r: Option<Package>)
    ensures match ParseFile(bytes)
      case Got(p, _) => r == Some(p)
      case Aborts => r.None?
  {
    hide ParsePool, ParseModule;
    var reader := new BirFileReader(bytes);
    var cp := new ConstantPoolSet();
    var ok := cp.Read(reader);
    if !ok {
      return None;
    }
    var builder := new PackageBuilder();
    r := builder.ReadModule(reader, cp);
  }
}

// From the bytes of a BIR file to the module emitted for it.
module Compilation {
  import opened Options
  import opened Words
  import opened ConstantPools
  import opened PackageFormat
  import opened Ir
  import opened Bir
  import opened Lowering
  import opened Correctness
  import PackageReader
  import opened Linking
  import opened CodeGen

  // The package a file holds, when it is in the translated language and well formed.
  ghost function SourceOf(bytes: seq<Byte>): (r: Option<Package>)
    ensures r.Some? ==> WfPackage(r.value)
  {
    match PackageReader.ParseFile(bytes)
    case Aborts => None
    case Got(pkg, _) =>
      var p :- Linked(pkg);
      if WfPackage(p) then Some(p) else None
  }

  // The compiler: the file is read, and code is generated for what it holds.
  method Compile(bytes: seq<Byte>) returns (r: Option<Module>)
    ensures r == if SourceOf(bytes).Some? then Some(LowerPackage(SourceOf(bytes).value)) else None
  {
    hide PackageReader.ParseFile, Linked, WfPackage, LowerPackage;
    var pkg := PackageReader.Deserialize(bytes);
    if pkg.None? {
      return None;
    }
    var p := Linked(pkg.value);
    if p.None? || !WfPackage(p.value) {
      return None;
    }
    var generator := new PackageCodeGen();
    generator.Visit(p.value);
    return Some(Module(generator.globals, generator.functions));
  }

  // A file written in the format is read as the package it stands for, whatever
  // follows it.
  lemma SourceIsWritten(f: FileForm, rest: seq<Byte>)
    requires OkFile(f)
    ensures var pkg := PackageOf(EntriesOf(f.pool), f.body);
      SourceOf(FileBytes(f) + rest) ==
        if pkg.Some? && Linked(pkg.value).Some? && WfPackage(Linked(pkg.value).value) then Linked(pkg.value) else None
  {
    hide PackageReader.ParseFile, Linked, WfPackage, PackageOf, OkFile, FileBytes;
    FileRoundTrip(f, rest);
  }

  // The bytes of a file that is written in the format and stands for this package.
  ghost predicate Holds(bytes: seq<Byte>, p: Package) {
    exists file: FileForm :: OkFile(file) && bytes == FileBytes(file) && StandsFor(file, p)
  }

  ghost predicate StandsFor(file: FileForm, p: Package)
    requires OkFile(file)
  {
    var pkg := PackageOf(EntriesOf(file.pool), file.body);
    pkg.Some? && Linked(pkg.value) == Some(p) && WfPackage(p)
  }

  lemma FileIsRead(bytes: seq<Byte>, rest: seq<Byte>, p: Package)
    requires Holds(bytes, p)
    ensures SourceOf(bytes + rest) == Some(p)
  {
    hide PackageReader.ParseFile, Linked, WfPackage, PackageOf, OkFile, FileBytes;
    var file: FileForm :| OkFile(file) && bytes == FileBytes(file) && StandsFor(file, p);
    SourceIsWritten(file, rest);
  }

  // n steps of a function, where each instruction is one whose translation is faithful
  // on its operands, are matched by the emitted code unless it runs out.
  ghost predicate Preserves(p: Package, env: IrEnv, f: Function, vals: seq<Val>, args: seq<IrVal>, n: nat) {
    var mod, s := LowerPackage(p), Start(p, f, vals);
    var t := StartIr(mod, LowerBody(p, f), args);
    AgreesAlong(p, env, s, IrRun(env, mod, t, EntrySteps(f)), n) ==>
      ReachesBy(p, env, t, Run(p, env.bir, s, n), EntrySteps(f) + TotalSteps(p, env.bir, s, n))
  }

  lemma PackagePreserves(p: Package, env: IrEnv, f: Function, vals: seq<Val>, args: seq<IrVal>, n: nat)
    requires WfPackage(p) && f in p.functions && !f.isExternal && ArgsMatch(f, vals, args)
    ensures Preserves(p, env, f, vals, args, n)
  {
    hide WfPackage, AgreesAlong, ReachesBy, StartIr, IrRun, LowerPackage, LowerBody, Start, EntrySteps, ArgsMatch,
      TotalSteps;
    var mod := LowerPackage(p);
    var t := StartIr(mod, LowerBody(p, f), args);
    if AgreesAlong(p, env, Start(p, f, vals), IrRun(env, mod, t, EntrySteps(f)), n) {
      MeaningPreserved(p, env, f, vals, args, n);
    }
  }

  // What is compiled does what the package written in the file does, for every
  // function of it that is not external, on matching arguments, for any number of
  // steps.
  lemma FileMeaningPreserved(bytes: seq<Byte>, rest: seq<Byte>, p: Package, env: IrEnv, f: Function, vals: seq<Val>,
                             args: seq<IrVal>, n: nat)
    requires Holds(bytes, p) && f in p.functions && !f.isExternal && ArgsMatch(f, vals, args)
    ensures SourceOf(bytes + rest) == Some(p) && Preserves(p, env, f, vals, args, n)
  {
    hide Holds, SourceOf, WfPackage, ArgsMatch, Preserves;
    FileIsRead(bytes, rest, p);
    PackagePreserves(p, env, f, vals, args, n);
  }
}

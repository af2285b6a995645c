// A BIR file, byte for byte: what it holds is the package that doubles its argument.
module DoublingFile {
  import opened Options
  import opened Streams
  import opened ConstantPools
  import opened InsnReader
  import opened InsnFormat
  import opened FunctionReader
  import opened FunctionFormat
  import PackageReader
  import opened PackageFormat
  import Bir
  import Linking
  import PlainPrograms
  import Compilation
  import PackageWriter
  import WrittenFiles

  // ----- The constant pool -----

  const INT_SHAPE: EntryForm := ShapeForm(0, TYPE_TAG_INT, 4, 0, 0, DroppedForm(Leaf))
  const TYPE_SHAPE: EntryForm := ShapeForm(0, TYPE_TAG_INVOKABLE, 4, 0, 0, InvokableForm([5], 0, 0, 5))

  const POOL: seq<EntryForm> :=
    [Plain(StringEntry(Ascii("double"))), Plain(StringEntry(Ascii("x"))), Plain(StringEntry(Ascii("%0"))),
     Plain(StringEntry(Ascii("bb0"))), Plain(StringEntry([])), INT_SHAPE, TYPE_SHAPE]

  // ----- The function -----

  const X: OperandForm := OperandForm(0, 2, 0, 1, 0, 0)
  const RESULT: OperandForm := OperandForm(0, 4, 0, 2, 0, 0)
  const ADD: InsnForm := InsnForm(4, 0, 0, 0, 0, BinaryForm(61, X, X, RESULT))
  const RETURNS: InsnForm := InsnForm(4, 0, 0, 0, 0, KindForm.ReturnForm)
  const BLOCK: BlockForm := BlockForm(3, [ADD, RETURNS])
  const FUNCTION: FunctionForm :=
    FunctionForm(HeaderForm(4, 0, 0, 0, 0, 0, 4, 0, 0, 6, []), [NameForm(1, 0)], PackageWriter.NO_TABLES,
                 ReturnForm.ReturnForm(1, 4, 5, 2), [ParamForm(2, 5, 1, 1, 0)],
                 [LocalForm(4, 5, 2, 0, 0, 0, 0), LocalForm(2, 5, 1, 1, 0, 0, 0)],
                 [[]], [BLOCK], 0, 0)

  const FILE: FileForm := FileForm(POOL, ModuleForm(0, 0, [], List([], List([], Leaf)), [], [], [FUNCTION]))

  // ----- It is written in the format -----

  lemma PoolIsOk()
    ensures OkPool(POOL)
    ensures var pool := EntriesOf(POOL);
      && StringCp(pool, 0) == Some(Ascii("double")) && StringCp(pool, 1) == Some(Ascii("x"))
      && StringCp(pool, 2) == Some(Ascii("%0")) && StringCp(pool, 3) == Some(Ascii("bb0"))
      && StringCp(pool, 4) == Some([]) && TypeCp(pool, 5) == Some(SimpleType(TYPE_TAG_INT))
      && InvocableTypeCp(pool, 6) && EntryAt(pool, 0) == Some(StringEntry(Ascii("double")))
  {
    hide Ascii;
    forall f | f in POOL
      ensures OkEntry(f)
    {
    }
    var pool := EntriesOf(POOL);
    assert pool[5] == EntryOf(INT_SHAPE) && pool[6] == EntryOf(TYPE_SHAPE);
  }

  lemma BodyIsOk()
    ensures OkFunction(EntriesOf(POOL), FUNCTION)
  {
    hide Conforms, EntriesOf, OkEntry;
    PoolIsOk();
    var pool := EntriesOf(POOL);
    WrittenFiles.TablesConform();
    assert OkBlock(pool, BLOCK);
  }

  lemma FileIsOk()
    ensures OkFile(FILE)
  {
    hide OkFunction, EntriesOf, OkEntry;
    PoolIsOk();
    BodyIsOk();
  }

  // ----- What it holds -----

  const READ_X: Operand := Operand(Ascii("x"), 2)
  const READ_RESULT: Operand := Operand(Ascii("%0"), 4)
  const READ_INT: TypeDecl := SimpleType(TYPE_TAG_INT)
  const READ_BLOCK: BasicBlock :=
    BasicBlock(Ascii("bb0"), Code([Binary(61, READ_RESULT, READ_X, READ_X)], Some(Return)))

  const READ: Function :=
    Function(Ascii("double"), [], 0, Some(VarDecl(Ascii("%0"), READ_INT, 4)), [Param(Ascii("x"), READ_INT)],
             [VarDecl(Ascii("%0"), READ_INT, 4), VarDecl(Ascii("x"), READ_INT, 2)], [READ_BLOCK])

  lemma BlockIsRead()
    ensures OkBlock(EntriesOf(POOL), BLOCK) && BlockOf(EntriesOf(POOL), BLOCK) == Some(READ_BLOCK)
  {
    hide EntriesOf, OkEntry, Ascii;
    PoolIsOk();
    BodyIsOk();
    var pool := EntriesOf(POOL);
    assert [ADD, RETURNS][..1] == [ADD] && [ADD][..0] == [];
    assert InsnOf(pool, ADD) == Some(Adds(Binary(61, READ_RESULT, READ_X, READ_X)));
    assert InsnOf(pool, RETURNS) == Some(Ends(Return));
    var one := [Binary(61, READ_RESULT, READ_X, READ_X)];
    assert [] + one == one;
    assert CodeOf(pool, [ADD]) == Some(Extended(Code([], None), Adds(Binary(61, READ_RESULT, READ_X, READ_X))));
  }

  lemma FunctionIsRead()
    ensures OkFunction(EntriesOf(POOL), FUNCTION) && FunctionOf(EntriesOf(POOL), FUNCTION) == Some(READ)
  {
    hide EntriesOf, OkEntry, Ascii, BlockOf, OkBlock, Conforms;
    PoolIsOk();
    BodyIsOk();
    BlockIsRead();
    var pool, f := EntriesOf(POOL), FUNCTION;
    assert f.names[..0] == [] && f.params[..0] == [] && f.defaults[..0] == [] && f.blocks[..0] == [];
    assert [] + [Ascii("x")] == [Ascii("x")];
    assert NamesOf(pool, f.names) == Some([Ascii("x")]);
    assert [] + READ.requiredParams == READ.requiredParams;
    assert ParamsOf(pool, [Ascii("x")], f.params) == Some(READ.requiredParams);
    assert f.locals[..1] == [f.locals[0]] && f.locals[..1][..0] == [];
    assert [] + [READ.localVars[0]] == [READ.localVars[0]];
    assert LocalsOf(pool, f.locals[..1]) == Some([READ.localVars[0]]);
    assert [READ.localVars[0]] + [READ.localVars[1]] == READ.localVars;
    assert LocalsOf(pool, f.locals) == Some(READ.localVars);
    assert DefaultsOf(pool, f.defaults) == Some(());
    assert [] + [READ_BLOCK] == [READ_BLOCK];
    assert BlocksOf(pool, f.blocks) == Some([READ_BLOCK]);
  }

  lemma NameIsKept()
    ensures !IsIgnored(Ascii("double"))
  {
    forall prefix | prefix in IGNORED_NAMES
      ensures !(Ascii(prefix) <= Ascii("double"))
    {
      assert prefix[0] == '.';
      assert Ascii(prefix)[0] == 46 && Ascii("double")[0] == 100;
    }
  }

  lemma PackageIsRead()
    ensures OkFile(FILE)
    ensures PackageOf(EntriesOf(POOL), FILE.body)
      == Some(PackageReader.Package(PackageReader.Identity([], [], []), [], [READ]))
  {
    hide EntriesOf, OkEntry, Ascii, FunctionOf, OkFunction, IsIgnored, Conforms;
    PoolIsOk();
    FileIsOk();
    FunctionIsRead();
    NameIsKept();
    var pool := EntriesOf(POOL);
    assert [FUNCTION][..0] == [];
    assert [] + [READ] == [READ];
    assert FunctionsOf(pool, [FUNCTION]) == Some([READ]);
  }

  // ----- What is compiled -----

  lemma BlockIsLinked()
    ensures Linking.LinkedBlock(READ_BLOCK) == Some(PlainPrograms.DOUBLE.blocks[0])
  {
    hide Ascii, Linking.Name;
    WrittenFiles.NameOfAscii("x");
    WrittenFiles.NameOfAscii("%0");
    WrittenFiles.NameOfAscii("bb0");
    Linking.AllAre(Linking.LinkedInsn, READ_BLOCK.code.insns, [PlainPrograms.SUM]);
  }

  lemma FunctionIsLinked()
    ensures Linking.LinkedFunction(READ) == Some(PlainPrograms.DOUBLE)
  {
    hide Ascii, Linking.Name, Linking.LinkedBlock;
    WrittenFiles.NameOfAscii("double");
    WrittenFiles.NameOfAscii("x");
    WrittenFiles.NameOfAscii("%0");
    BlockIsLinked();
    Linking.AllAre(Linking.LinkedParam, READ.requiredParams, [PlainPrograms.ARGUMENT]);
    Linking.AllAre(Linking.LinkedVar, READ.localVars, [PlainPrograms.RESULT, PlainPrograms.ARGUMENT]);
    Linking.AllAre(Linking.LinkedBlock, READ.basicBlocks, PlainPrograms.DOUBLE.blocks);
  }

  // Compiling these bytes gives the module whose function returns twice its argument.
  lemma FileHoldsDoubles()
    ensures OkFile(FILE) && Compilation.Holds(FileBytes(FILE), PlainPrograms.DOUBLES)
    ensures Compilation.SourceOf(FileBytes(FILE)) == Some(PlainPrograms.DOUBLES)
  {
    hide FileBytes, OkFile, EntriesOf, Linking.LinkedFunction, Bir.WfPackage;
    PackageIsRead();
    FunctionIsLinked();
    PlainPrograms.DoublesIsPlain();
    Linking.AllAre(Linking.LinkedFunction, [READ], [PlainPrograms.DOUBLE]);
    assert Compilation.StandsFor(FILE, PlainPrograms.DOUBLES);
    Compilation.FileIsRead(FileBytes(FILE), [], PlainPrograms.DOUBLES);
    assert FileBytes(FILE) + [] == FileBytes(FILE);
  }
}

# A Dafny model of nBallerina

nBallerina translates the intermediate representation of Ballerina (BIR) to LLVM IR
and links the result with a small runtime. This project models the parts in which a
mistake would change what a program computes, and proves what they promise.

* **The hash map of the C runtime** (`HashTable`, `HashTableRuns`, `BalMap`). An
  open-addressing table with downward cyclic probing, exact `0.6f` capacities,
  rehashing and merging. The class updates an array in place; it is specified by
  functions on tables, and those refine finite maps over whole runs. The number
  `0.6f` is 10066330 / 2^24 in binary32 (section 3.4 of IEEE 754), its product with a
  power of two is exact, and the conversion truncates (section 6.3.1.4 of
  ISO/IEC 9899:2011), so capacities are integers here.
* **The translation of BIR** (`Bir`, `Ir`, `Lowering`, `CodeGen`, `Matching`,
  `Numbering`, `Simulation`, `CastSimulation`, `MapSimulation`, `CallSimulation`,
  `Exhaustion`, `Correctness`, `Constructors`, `Progress`, `Admission`,
  `PlainPrograms`). BIR has a small-step semantics with named variables, a call
  stack, mappings and a trace of external calls. The emitted subset of LLVM IR has
  its own, with stack cells, temporaries, blocks, boxes and the runtime's tables.
  `CodeGen` holds the builder and the generators, which append to the current block;
  each is proved to emit what `Lowering` defines. `Correctness` proves a simulation
  over runs of any length, `Exhaustion` where such a run can end early, `Progress`
  when a package is stuck, `Admission` what well-formed packages may contain, and
  `Constructors` what a mapping constructor leaves in the tables, whether or not it
  is what the language asks for.
* **The representation of `any`** (`Words`, `TaggedValues`, `ConversionCode`): 63-bit
  immediates, boxes, and two words for the booleans, as a relation between words and
  values. `ConversionCode` holds the instructions of the four emitted conversion
  functions and proves what running them computes.
* **The growable array** (`DynamicArray`) as an indexed store with a space bound.
* **The type-descriptor check** (`TypeChecker`) as a preorder, and its length field.
* **The BIR file reader** (`Streams`, `ConstantPool`, `InsnReader`, `InsnFormat`,
  `FunctionReader`, `FunctionFormat`, `PackageReader`, `PackageFormat`). Reading is a
  function of the stream and the pool on every byte sequence; the readers, which
  advance a cursor, follow it. The format is written out separately, with every
  field, and reading is proved to invert it, for whole files.
  `DroppedParts` writes out, byte for byte, the parts that are read and dropped.
* **The compiler as a whole** (`Linking`, `Compilation`, `PackageWriter`,
  `WrittenFiles`, `DoublingFile`). What is read is converted to the packages the
  translation is about; the bytes of a file and the code emitted for it mean the same.
  `PackageWriter` writes a file for every package the format can express, with the
  numbers of the format spelled out once more, and `WrittenFiles` proves that
  compiling it gives that package. `DoublingFile` is another file, entry by entry.

`Options` holds the option type and `Division` compares signed and unsigned division.

## Where the code and its intention differ

The model follows the code. For each difference there is a lemma that says exactly
when the intention is met.

* A spread visits the slots below `src->used` instead of all of them, and spreading
  an empty mapping reaches the shrinking abort: `HashTableRuns.SpreadIsOverrideIff`,
  `HashTableRuns.SpreadRefines`, `MapSimulation.SpreadFaithfulIff`, with inputs in
  `HashTableRuns.SpreadDropsAnEntry` and `HashTableRuns.EmptySpreadAborts`. What a
  whole constructor then leaves is in `Constructors.EmittedConstructor`.
* Integer division and remainder are emitted as unsigned, and `!=` on floats as an
  ordered comparison: `Simulation.OperatorFaithfulIff`,
  `Division.UnsignedDivisionAgreesIff`, `Division.UnsignedRemainderAgreesIff`, with
  inputs in `Division.NegativeDividendDisagrees`, `Division.NegativeRemainderDisagrees`
  and `Simulation.UnorderedDoNotDiffer`.
* Sums, differences, products and negations of integers are emitted as instructions
  that wrap. The model takes as a parameter whether the language checks them for
  overflow, and every theorem holds for both: `Simulation.OperatorFaithfulIff`,
  `Simulation.UnaryFaithfulIff`, with an input in `Simulation.OverflowDisagrees`.
* A cast of an integer in an `any` to boolean gives false instead of a panic:
  `CastSimulation.UnwrapFaithfulIff`, with an input in
  `CastSimulation.IntToBooleanDisagrees`.
* A cast between types without a conversion emits a bitcast and stores nothing:
  `CastSimulation.PointerCastStoresNothing`.
* A mapping load does not look at the answer of the lookup:
  `MapSimulation.AbsentKeyIsUndefined`; in a mapping just created every key is absent
  (`HashTableRuns.NoKeyInCreated`).
* The tail of a grown array is whatever the allocator left there; the contract of
  `DynamicArrays.DynamicBalArray.GetElement` promises zero below the initial capacity
  only.
* Two descriptors can be compatible both ways and differ:
  `TypeChecker.CompatibleBothWaysIff`.

`Correctness.MeaningPreserved` takes these conditions along the run, as one predicate
on the operands of the next instruction. `PlainPrograms.PlainMeaningPreserved` replaces
them by a check of the program text, and `PlainPrograms.RoomyMeaningPreserved` adds a
check under which the emitted code cannot run out of memory or table capacity.

## Model

| member | source | states |
|---|---|---|
| `HashTable.InitIsLeast` | runtime/c_rt/src/balmap.c:27-40 | the table made for a requested capacity has the least power of two from 8 up whose capacity (three fifths of it: CapacityIsThreeFifths) suffices, is empty and valid, has 1 <= capacity < size, and the overflow abort happens exactly when even 2^63 slots are too few |
| `HashTable.CapacityIsThreeFifths` | runtime/c_rt/src/balmap.c:24-37 | the capacity is three fifths of the size rounded down, exactly, for every size below 2^23, and beyond that three fifths and the excess of 0.6f |
| `HashTable.SizeFacts` | runtime/c_rt/include/balmap.h:33-40 | for every admissible size, 1 <= capacity < size and doubling the size at least doubles the capacity |
| `HashTable.HashSumIsWeighted` | runtime/c_rt/include/common.h:61-69 | the hash before reduction is 5381 times a power of 33 plus each character times the power of 33 for its distance from the end |
| `HashTable.HomeIsRemainder` | runtime/c_rt/src/balmap.c:71-75 | the first slot looked at is the hash modulo the number of slots |
| `HashTable.ProbeGoesDown` | runtime/c_rt/src/balmap.c:86-90 | the slot after d steps is the first one less d, modulo the number of slots |
| `HashTable.ProbeTerminates` | runtime/c_rt/src/balmap.c:78-91 | in every table within its capacity both endless probe loops stop within n_entries steps, at a free slot or at the key |
| `HashTable.ProbeFinds` | runtime/c_rt/src/balmap.c:113-126 | a stored key is found at the cyclic distance of its slot from its home slot, whatever else was inserted |
| `HashTable.LookupRefines` | runtime/c_rt/src/balmap.c:104-131 | a lookup in a valid table answers from the finite map of its slots: the value of a present key, nothing for any other key |
| `HashTable.PutRefines` | runtime/c_rt/src/balmap.c:77-94 | writing a key keeps the probe-chain invariant, distinctness and the count, updates the finite map at that key only, and counts a new key once |
| `HashTable.PutKeepsChains` | runtime/c_rt/src/balmap.c:78-93 | after a write every slot on the cyclic way down from the home of every stored key to its slot is occupied |
| `HashTable.PutAllRefines` | runtime/c_rt/src/balmap.c:59-63 | re-inserting any slots into a table with room gives the override of its map by theirs, with the invariant |
| `HashTable.GrowRefines` | runtime/c_rt/src/balmap.c:49-68 | growing keeps the finite map and the number of keys, rebuilds the invariant for the least size that has room, aborts as shrinking exactly when the new size is not above the used count and as overflow exactly when no size suffices |
| `HashTable.InsertRefines` | runtime/c_rt/src/balmap.c:70-102 | an insertion is the update of a finite map with the invariant kept; it never reaches the shrinking abort and overflows only for a new key in a full table of 2^63 slots |
| `HashTable.InsertOverflowsIff` | runtime/c_rt/src/balmap.c:70-102 | an insertion overflows exactly when the map it should leave has as many keys as the largest capacity |
| `HashTable.InsertGrowthDoubles` | runtime/c_rt/src/balmap.c:95-97 | growth set off by an insertion exactly doubles the number of slots |
| `HashTable.InsertAllRefines` | runtime/c_rt/src/balmap.c:144-149 | inserting a range of slots one by one is the override of the map by them, and overflows exactly when that override has as many keys as the largest capacity |
| `HashTableRuns.CreateIsValid` | runtime/c_rt/src/balmap.c:42-47 | a new mapping is a valid empty table of 16 slots |
| `HashTableRuns.RoomForTen` | runtime/c_rt/src/balmap.c:27-40 | a table made for ten keys has 32 slots and capacity 19 |
| `HashTableRuns.LookupAfterInserts` | runtime/c_rt/src/balmap.c:42-131 | after any sequence of insertions from creation, across any number of rehashes, a lookup gives the last value inserted for the key and finds no other key |
| `HashTableRuns.InsertsSucceed` | runtime/c_rt/src/balmap.c:70-102 | no sequence of fewer insertions than the capacity of 2^63 slots aborts, whatever the keys |
| `HashTableRuns.InsertEffect` | runtime/c_rt/src/balmap.c:92-97 | one insertion adds one key at most; when it grows it moves exactly capacity entries and doubles the slots |
| `HashTableRuns.RehashingIsAmortised` | runtime/c_rt/src/balmap.c:49-97 | over any insertions from creation, the entries re-inserted by all growth together are fewer than twice the distinct keys |
| `HashTableRuns.SizeFollowsKeys` | runtime/c_rt/src/balmap.c:95-97 | after any insertions from creation there are 16 slots exactly while there are fewer than nine keys, and the table is always the smallest from 16 slots up that keeps its keys below its capacity |
| `HashTableRuns.SpreadRefines` | runtime/c_rt/src/balmap.c:133-150 | a merge that scans the slots below a bound aborts as shrinking exactly when the source is empty, as overflow exactly when the sizes or the keys of the result are too many, and otherwise gives the override by exactly those entries, in a valid table even when the first step picks a smaller size |
| `HashTableRuns.FullScanSpreads` | runtime/c_rt/src/balmap.c:133-150 | scanning every slot would give the old target overridden by the source, whenever the source is not empty and the keys are not too many |
| `HashTableRuns.SpreadIsOverrideIff` | runtime/c_rt/src/balmap.c:145-149 | the loop as written, which scans only srcUsed slots, ends with the override exactly when the source is not empty, the keys are not too many, and every entry it skips is in the target already with the same value |
| `HashTableRuns.SpreadDropsAnEntry` | runtime/c_rt/src/balmap.c:145-149 | a source with the one key "a" spread into a new mapping contributes nothing |
| `HashTableRuns.SpreadKeepsAnEntry` | runtime/c_rt/src/balmap.c:145-149 | a source with the one key "k" spread into a new mapping contributes its entry |
| `HashTableRuns.EmptySpreadAborts` | runtime/c_rt/src/balmap.c:141-142 | spreading a mapping that was just created reaches the shrinking abort |
| `HashTableRuns.NoKeyInCreated` | runtime/c_rt/src/balmap.c:104-127 | no key is found in a mapping that was just created |
| `HashTableRuns.SpreadSizeFits` | runtime/c_rt/src/balmap.c:137-140 | the test on the sum of the two sizes never aborts for two valid tables |
| `BalMaps.StringHash` | runtime/c_rt/include/common.h:61-69 | the loop reduced modulo 2^64 at each character computes, modulo 2^64, 5381 times 33 to the length plus each character weighted by the power of 33 for its distance from the end |
| `BalMaps.BalMap.InitHashtable` | runtime/c_rt/src/balmap.c:27-40 | the object holds the empty table of the least size whose capacity suffices, or the overflow abort is reached |
| `BalMaps.BalMap.Create` | runtime/c_rt/src/balmap.c:42-47 | a new object is a valid table whose finite map is empty |
| `BalMaps.BalMap.GrowHashtable` | runtime/c_rt/src/balmap.c:49-68 | in place: same finite map, same used count, the table of the specification, or one of the two aborts |
| `BalMaps.BalMap.InsertWithHash` | runtime/c_rt/src/balmap.c:70-98 | in place, through insert-grow-insert recursion that terminates: the table of the specification or its abort |
| `BalMaps.BalMap.Insert` | runtime/c_rt/src/balmap.c:100-102 | the finite map of the object becomes the old one with the key bound to the value |
| `BalMaps.BalMap.LookupWithHash` | runtime/c_rt/src/balmap.c:104-127 | the probe loop ends with the answer of the specification |
| `BalMaps.BalMap.Lookup` | runtime/c_rt/src/balmap.c:129-131 | the value the finite map of the object has for the key, or nothing |
| `BalMaps.BalMap.SpreadFieldInit` | runtime/c_rt/src/balmap.c:133-150 | the finite map becomes the old one overridden by the entries in the first srcUsed slots of the source, which may be the object itself |
| `TaggedValues.IntToAnyEncodes` | compiler/codegen/CodeGenUtils.cpp:203-274 | the word stands for the integer, is immediate exactly from -2^62 to 2^62 - 1 and otherwise the address of a new box, and no existing cell changes |
| `TaggedValues.IntRoundTrip` | compiler/codegen/CodeGenUtils.cpp:203-363 | unboxing what boxing gives is the identity on all 64-bit integers |
| `TaggedValues.DecodersAgree` | compiler/codegen/CodeGenUtils.cpp:285-363 | any_to_int gives the integer a word stands for and aborts for a boolean; any_to_bool is true exactly for the word of true |
| `TaggedValues.LowBitsTellKind` | compiler/codegen/CodeGenUtils.cpp:401-433 | booleans, immediates and boxes are told apart by the two low bits |
| `TaggedValues.EncodingIsUnambiguous` | compiler/codegen/CodeGenUtils.cpp:203-433 | no word stands for two values |
| `TaggedValues.EncodedValuesPersist` | compiler/codegen/CodeGenUtils.cpp:252-268 | whatever integers are boxed later, an encoded value still decodes to itself |
| `ConversionCode.IntToAnyComputes` | compiler/codegen/CodeGenUtils.cpp:203-274 | running the emitted instructions of int_to_any, with any address malloc may return, computes the boxing function; its shift never wraps |
| `ConversionCode.AnyToIntComputes` | compiler/codegen/CodeGenUtils.cpp:285-363 | running the emitted instructions of any_to_int computes the unboxing function, the abort included |
| `ConversionCode.BoolToAnyComputes` | compiler/codegen/CodeGenUtils.cpp:401-433 | running the emitted bool_to_any gives words 14 and 6 |
| `ConversionCode.AnyToBoolComputes` | compiler/codegen/CodeGenUtils.cpp:435-467 | running the emitted any_to_bool compares the low byte with 14 |
| `Words.XorBits` | compiler/codegen/BinaryOpInsnCodeGen.cpp:148-149 | a bit of the exclusive or is set exactly when it differs in the operands |
| `Words.XorTwice` | compiler/codegen/BinaryOpInsnCodeGen.cpp:148-149 | exclusive or with the same value twice gives the first back |
| `Words.AndBits` | compiler/codegen/CodeGenUtils.cpp:285-363 | a bit of a mask is set exactly when it is in both operands |
| `Words.OrBits` | compiler/codegen/CodeGenUtils.cpp:203-274 | a bit is set exactly when it is in one operand at least |
| `Division.UnsignedDivisionAgreesIff` | compiler/codegen/BinaryOpInsnCodeGen.cpp:68-77 | the emitted unsigned division gives the quotient of the language exactly on the operands DivAgrees lists |
| `Division.UnsignedRemainderAgreesIff` | compiler/codegen/BinaryOpInsnCodeGen.cpp:78-87 | the same for the remainder and RemAgrees |
| `Division.NegativeDividendDisagrees` | compiler/codegen/BinaryOpInsnCodeGen.cpp:70-71 | -7 / 2 is -3 in the language and 2^63 - 4 as emitted |
| `Division.NegativeRemainderDisagrees` | compiler/codegen/BinaryOpInsnCodeGen.cpp:80-81 | -7 % 2 is -1 in the language and 1 as emitted |
| `Lowering.ControlFlowIsWellFormed` | compiler/codegen/FunctionCodeGen.cpp:66-107 | for every well-formed function: the entry block and one block per BIR block in order, one terminator in each, at its end, every branch to a created block |
| `Numbering.TemporariesAssignedOnce` | compiler/codegen/FunctionCodeGen.cpp:99-106 | in the code of any function each temporary and each result cell is assigned by one instruction only, before its uses, which are in the same block |
| `Lowering.BlockIsWellEnded` | compiler/codegen/BasicBlockCodeGen.cpp:31-41 | the code of a block ends in its only terminator |
| `Lowering.FieldsOneByOne` | compiler/codegen/StructureInsnCodeGen.cpp:42-64 | the code of a mapping constructor is the code of its fields, one after another |
| `Lowering.LabelFindsBlock` | compiler/codegen/FunctionCodeGen.cpp:89-104 | a label of the emitted function leads to the code of the BIR block of that name |
| `Lowering.FindLowered` | compiler/codegen/PackageCodeGen.cpp:57-81 | a function name of the module leads to the translation of the function of that name |
| `CodeGen.FunctionCodeGen.GetLocalOrGlobalVal` | compiler/codegen/FunctionCodeGen.cpp:55-62 | the cell of a local variable or the global variable of the operand |
| `CodeGen.FunctionCodeGen.CreateTempVal` | compiler/codegen/FunctionCodeGen.cpp:50-53 | appends one load of the operand and returns its temporary |
| `CodeGen.FunctionCodeGen.VisitMove` | compiler/codegen/MoveInsnCodeGen.cpp:27-32 | appends exactly the translation of a move to the current block and changes nothing else of the function |
| `CodeGen.FunctionCodeGen.VisitBinary` | compiler/codegen/BinaryOpInsnCodeGen.cpp:28-156 | appends two loads, the operator chosen by kind and operand type, and a store |
| `CodeGen.FunctionCodeGen.VisitUnary` | compiler/codegen/UnaryOpInsnCodeGen.cpp:27-45 | appends a load, the exclusive or with true or the subtraction from zero, and a store |
| `CodeGen.FunctionCodeGen.VisitConstLoad` | compiler/codegen/ConstantLoadInsnCodeGen.cpp:30-91 | appends a store of the constant; nothing for a nil loaded into a variable, local or global, named as the return variable of main |
| `CodeGen.FunctionCodeGen.VisitTypeCast` | compiler/codegen/TypeCastInsnCodeGen.cpp:29-79 | appends the conversion chosen by the two static types, or for a pair without one the bitcast of the operand |
| `CodeGen.FunctionCodeGen.MapCreateTranslate` | compiler/codegen/StructureInsnCodeGen.cpp:30-40 | appends the creation of a mapping and the store of its pointer |
| `CodeGen.FunctionCodeGen.MapInitTranslate` | compiler/codegen/StructureInsnCodeGen.cpp:42-64 | appends one store or spread call for each initialiser, in source order |
| `CodeGen.FunctionCodeGen.VisitStructure` | compiler/codegen/StructureInsnCodeGen.cpp:66-81 | appends creation and initialisation |
| `CodeGen.FunctionCodeGen.VisitMapStore` | compiler/codegen/MapInsnsCodeGen.cpp:29-37 | appends the three loads and the insertion call |
| `CodeGen.FunctionCodeGen.VisitMapLoad` | compiler/codegen/MapInsnsCodeGen.cpp:39-60 | appends the result cell, the lookup call, the boxing and the store |
| `CodeGen.FunctionCodeGen.VisitGoto` | compiler/codegen/TerminatorInsnCodeGen.cpp:60-63 | appends a branch to the created block of that name |
| `CodeGen.FunctionCodeGen.VisitCondBranch` | compiler/codegen/TerminatorInsnCodeGen.cpp:32-39 | appends the test and a branch to the two created blocks |
| `CodeGen.FunctionCodeGen.VisitCall` | compiler/codegen/TerminatorInsnCodeGen.cpp:41-58 | appends the loads of the arguments in order, the call, the store of its result and the branch |
| `CodeGen.FunctionCodeGen.VisitReturn` | compiler/codegen/TerminatorInsnCodeGen.cpp:65-75 | appends the return of the return variable, or of nothing for main |
| `CodeGen.FunctionCodeGen.VisitBlock` | compiler/codegen/BasicBlockCodeGen.cpp:31-41 | appends the instructions of a block in order and then its terminator |
| `CodeGen.FunctionCodeGen.AllocateLocals` | compiler/codegen/FunctionCodeGen.cpp:73-87 | one alloca for each local variable, and a store of the k-th argument for the k-th ARG-kind one |
| `CodeGen.FunctionCodeGen.CreateBlocks` | compiler/codegen/FunctionCodeGen.cpp:89-92 | every block is created, empty and in order, before any is filled |
| `CodeGen.FunctionCodeGen.Visit` | compiler/codegen/FunctionCodeGen.cpp:66-107 | the body of the function is the translation the correctness theorem is about |
| `CodeGen.PackageCodeGen.Visit` | compiler/codegen/PackageCodeGen.cpp:48-81 | globals, declarations of all functions, then the bodies of those that are not external, give the translated module |
| `Simulation.OperatorFaithfulIff` | compiler/codegen/BinaryOpInsnCodeGen.cpp:37-155 | on operands of the static types, the emitted operator gives the value of the language (for exclusive or see Words.XorBits) exactly when BinaryAgrees: not for some integer quotients and remainders, zero divisors, float inequality with a NaN, and, where arithmetic is checked, sums, differences and products out of range |
| `Simulation.UnorderedDoNotDiffer` | compiler/codegen/BinaryOpInsnCodeGen.cpp:138-147 | for floats of which one is not a number, != is true in the language and false as emitted |
| `Simulation.UnaryFaithfulIff` | compiler/codegen/UnaryOpInsnCodeGen.cpp:31-44 | the emitted complement and negation give the value of the language; where arithmetic is checked, exactly when the negation is in range |
| `Simulation.OverflowDisagrees` | compiler/codegen/BinaryOpInsnCodeGen.cpp:38-47 | where arithmetic is checked, 2^63 - 1 plus 1 panics in the language and is -2^63 as emitted |
| `CastSimulation.UnwrapFaithfulIff` | compiler/codegen/TypeCastInsnCodeGen.cpp:43-62 | a cast out of any agrees with the language except a cast of an integer to boolean, which gives false where the language panics |
| `CastSimulation.IntToBooleanDisagrees` | compiler/codegen/TypeCastInsnCodeGen.cpp:49-53 | casting 7 in an any to boolean panics in the language and gives false as emitted |
| `CastSimulation.WrapFaithful` | compiler/codegen/TypeCastInsnCodeGen.cpp:63-70 | a cast into any gives a word for the value and changes no existing box |
| `CastSimulation.PointerCastStoresNothing` | compiler/codegen/TypeCastInsnCodeGen.cpp:76-78 | of the cast pairs the generator does not reject, the emitted code leaves every cell as it was exactly for those without a conversion |
| `MapSimulation.SpreadFaithfulIff` | compiler/codegen/StructureInsnCodeGen.cpp:50-56 | a spread call aborts exactly on an empty source, runs out exactly when the keys are too many, and leaves the override of the target by the source exactly when neither happens and its skipped entries are in the target already |
| `MapSimulation.SimulateMapLoad` | compiler/codegen/MapInsnsCodeGen.cpp:39-55 | loading a present key leaves in the target variable a word for the stored integer |
| `MapSimulation.AbsentKeyIsUndefined` | compiler/codegen/MapInsnsCodeGen.cpp:49-55 | loading an absent key boxes a cell that was never written, where the language yields nil |
| `MapSimulation.SimulateNewMap` | compiler/codegen/StructureInsnCodeGen.cpp:30-40 | creating a mapping leaves a fresh empty one on both sides, with the initialisers still to follow |
| `MapSimulation.NewMapRuns` | compiler/codegen/StructureInsnCodeGen.cpp:30-40 | the two emitted instructions add one empty table after the others and store its pointer; nothing else changes |
| `MapSimulation.SimulateStore` | compiler/codegen/StructureInsnCodeGen.cpp:57-62 | storing an entry updates the mapping on both sides |
| `MapSimulation.SimulateSpread` | compiler/codegen/StructureInsnCodeGen.cpp:50-56 | a spread field whose emitted call is faithful merges on both sides |
| `Constructors.InitsFold` | compiler/codegen/StructureInsnCodeGen.cpp:48-63 | any list of insertion and spread calls on valid tables leaves the left-to-right fold of the finite maps, for the merge as written and for one that scans every slot; it aborts or overflows exactly where the fold does |
| `Constructors.FieldsRun` | compiler/codegen/StructureInsnCodeGen.cpp:42-64 | running the emitted code of any list of initialisers makes their calls, in order, on the table of the target |
| `Constructors.EmittedConstructor` | compiler/codegen/StructureInsnCodeGen.cpp:30-64 | from any matched state, faithful or not, the emitted code of a mapping constructor leaves a new table holding the fold of its initialisers as the runtime is written, or its abort, or its overflow |
| `Constructors.FullScanMerges` | compiler/codegen/StructureInsnCodeGen.cpp:48-63 | with a scan of every slot the fold that ends is the merge the language asks for |
| `Constructors.ConstructorFollows` | compiler/codegen/StructureInsnCodeGen.cpp:30-64 | where the spreads are faithful, the emitted constructor and the package reach matching states in which the new mapping is the left-to-right merge of its initialisers and nothing else changed |
| `CallSimulation.EnterReaches` | compiler/codegen/FunctionCodeGen.cpp:73-97 | a called function reaches its first block with each parameter holding its argument |
| `CallSimulation.EntryCellsMatch` | compiler/codegen/FunctionCodeGen.cpp:73-87 | after the entry block each variable has a cell, and the k-th ARG-kind one holds the k-th argument |
| `CallSimulation.ArgumentDecodes` | compiler/codegen/TerminatorInsnCodeGen.cpp:41-58 | what an external function is passed determines the value: a scalar by its type, a word of type any by its bits and its box |
| `CallSimulation.SimulateCall` | compiler/codegen/TerminatorInsnCodeGen.cpp:41-58 | a call, internal or external, is matched: arguments, trace event, result and next block |
| `CallSimulation.SimulateReturn` | compiler/codegen/TerminatorInsnCodeGen.cpp:65-75 | a return is matched: the caller goes on with the result stored, or the run ends with it |
| `CallSimulation.SimulateBranch` | compiler/codegen/TerminatorInsnCodeGen.cpp:32-39 | a conditional branch goes to the block of the same name on both sides |
| `Correctness.StepSimulated` | compiler/codegen/FunctionCodeGen.cpp:66-107 | one step of a well-formed package, on agreeing operands, is matched by the emitted instructions of that step |
| `Correctness.LoadThenCast` | compiler/codegen/MapInsnsCodeGen.cpp:39-55 | loading a present key into a variable of type any and casting it to int gives back the stored integer, for every 64-bit value |
| `Correctness.RunSimulated` | compiler/codegen/FunctionCodeGen.cpp:66-107 | runs of any length, loops, calls and recursion included, reach matching states after a definite number of emitted steps, unless the emitted code got to a place where it runs out: the block of the same name, each cell standing for its variable, the same external calls |
| `Correctness.StartSimulated` | compiler/codegen/FunctionCodeGen.cpp:66-97 | the emitted function started on matching arguments reaches its first block, globals matching |
| `Correctness.MeaningPreserved` | compiler/codegen/PackageCodeGen.cpp:33-81 | for every well-formed package, function, arguments and number of steps, the emitted code started on the same arguments reaches, after a definite number of steps, a state that matches, unless on the way it got to one of the three places where it runs out |
| `Correctness.SameNamedBlock` | compiler/codegen/FunctionCodeGen.cpp:89-104 | in a matched state of a run, the emitted code that is running is that of the block the package is in |
| `Correctness.DivergencePreserved` | compiler/codegen/FunctionCodeGen.cpp:66-107 | a package that never ends has emitted code that never ends, unless that runs out |
| `Exhaustion.ExhaustsIff` | runtime/c_rt/src/balmap.c:27-40 | a step of the emitted code runs out exactly at a boxing for which malloc finds no place, an insertion of a new key into a full table of 2^63 slots, or a merge of too many keys |
| `Exhaustion.ExhaustedIff` | runtime/c_rt/src/balmap.c:27-40 | a run is exhausted exactly when it got to one of those places |
| `Exhaustion.QuietHasRoom` | runtime/c_rt/src/balmap.c:27-40 | code without boxing, insertion and merging never gets to one |
| `Exhaustion.ControlIsNamed` | compiler/codegen/FunctionCodeGen.cpp:89-104 | in any run control is in the code of the block the frame names |
| `Admission.OperatorAdmittedIff` | compiler/codegen/BinaryOpInsnCodeGen.cpp:37-155 | the operators of a well-formed package: exactly those on numbers of one type, equality of nils, and exclusive or of integers |
| `Admission.UnaryAdmittedIff` | compiler/codegen/UnaryOpInsnCodeGen.cpp:27-45 | complement of booleans and negation of integers |
| `Admission.CastAdmittedIff` | compiler/codegen/TypeCastInsnCodeGen.cpp:43-75 | casts: exactly the pairs with a conversion |
| `Admission.MoveAdmittedIff` | compiler/codegen/MoveInsnCodeGen.cpp:27-32 | moves within a type or between words |
| `Admission.ConstantAdmitted` | compiler/codegen/ConstantLoadInsnCodeGen.cpp:30-91 | any constant into a local variable of its type |
| `Admission.MappingsAdmitted` | compiler/codegen/MapInsnsCodeGen.cpp:29-60 | creating, storing into and loading from mappings of integers |
| `Admission.FieldsAdmitted` | compiler/codegen/StructureInsnCodeGen.cpp:42-64 | any list of key-value and spread fields |
| `Admission.CallAdmitted` | compiler/codegen/TerminatorInsnCodeGen.cpp:41-58 | calls of any function but main with a result |
| `Admission.BranchAdmitted` | compiler/codegen/TerminatorInsnCodeGen.cpp:32-39 | branches to blocks of the function, and returns |
| `Progress.StuckIff` | compiler/codegen/FunctionCodeGen.cpp:66-107 | a package in a matched state is stuck next exactly when the step reads an unset variable or an external function answers outside its declared type |
| `Correctness.FinishedRunObserved` | compiler/codegen/TerminatorInsnCodeGen.cpp:65-75 | when the package has returned or panicked, the emitted code has ended, for good, with the same external calls and a result represented as the declared type requires, or the abort; unless it got to a place where it runs out |
| `PlainPrograms.PlainAgreesAlong` | compiler/codegen/BinaryOpInsnCodeGen.cpp:37-155 | a check of the instructions alone makes every instruction of every run one whose translation is faithful |
| `PlainPrograms.PlainMeaningPreserved` | compiler/codegen/PackageCodeGen.cpp:33-81 | packages that pass that check keep their meaning with no condition on the run |
| `PlainPrograms.RoomyNeverRunsOut` | compiler/codegen/PackageCodeGen.cpp:33-81 | a second check of the instructions excludes every place where the emitted code runs out, whatever the allocator does |
| `PlainPrograms.RoomyMeaningPreserved` | compiler/codegen/PackageCodeGen.cpp:33-81 | packages that pass both checks reach matching states with no condition and no exception |
| `PlainPrograms.DoublesRuns` | compiler/codegen/PackageCodeGen.cpp:33-81 | in the language that package returns twice its argument, or panics where arithmetic is checked and that does not fit |
| `PlainPrograms.RunIgnoresChecking` | compiler/codegen/BinaryOpInsnCodeGen.cpp:38-67 | no run of emitted code depends on whether arithmetic is checked |
| `PlainPrograms.EmittedCodeDoubles` | compiler/codegen/PackageCodeGen.cpp:33-81 | the emitted code of a package that adds its argument to itself returns the wrapped double, for every argument and every allocator, whether or not arithmetic is checked, and stays so |
| `DynamicArrays.GrowthBounds` | runtime/rust_rt/src/bal_array.rs:97-102 | each growth gives the least multiple of twice the capacity that has room for the index, which is at least twice the capacity and at most three times the index |
| `DynamicArrays.GrowthOverflowsIff` | runtime/rust_rt/src/bal_array.rs:97-99 | growing overflows exactly when no multiple of twice the capacity with room for the index is a 64-bit integer |
| `DynamicArrays.SmallIndexFits` | runtime/rust_rt/src/bal_array.rs:97-99 | no index below a third of 2^63 overflows the new capacity |
| `DynamicArrays.HoldsLastWrites` | runtime/rust_rt/src/bal_array.rs:43-110 | after any sequence of stores, across every growth, an index holds the last value stored at it, and the length is one more than the largest index |
| `DynamicArrays.SpaceAndCopyingAreBounded` | runtime/rust_rt/src/bal_array.rs:96-110 | the capacity never exceeds the larger of the initial one and three times the largest index, and all growth together copies no more elements than the room it made |
| `DynamicArrays.SmallStoresSucceed` | runtime/rust_rt/src/bal_array.rs:96-110 | stores at non-negative indices below a third of 2^63 all succeed |
| `DynamicArrays.DynamicBalArray.constructor` | runtime/rust_rt/src/bal_array.rs:43-62 | a new array is all zeros with the requested or the default capacity |
| `DynamicArrays.DynamicBalArray.GrowArray` | runtime/rust_rt/src/bal_array.rs:72-84 | the old elements move to a larger block whose tail is unspecified |
| `DynamicArrays.DynamicBalArray.GetElement` | runtime/rust_rt/src/bal_array.rs:86-94 | panics exactly for an index that is negative or not below the length; otherwise the last stored value, or zero for an unwritten index below the initial capacity |
| `DynamicArrays.DynamicBalArray.SetElement` | runtime/rust_rt/src/bal_array.rs:96-110 | a store that does not panic leaves the indexed store of the specification, with length <= capacity; one that panics changes no element |
| `TypeChecker.ComputeSize` | runtime/rust_rt/src/type_checker.rs:51-68 | the character loop computes the length field, or panics |
| `TypeChecker.SizeRoundTrip` | runtime/rust_rt/src/type_checker.rs:51-68 | for every n below 2^31, its decimal digits after a two-character radix-32 count are read back as n, whatever surrounds them |
| `TypeChecker.DecimalRoundTrip` | runtime/rust_rt/src/type_checker.rs:66 | parsing the decimal digits of a 32-bit n gives n |
| `TypeChecker.SignedRoundTrip` | runtime/rust_rt/src/type_checker.rs:66 | every 32-bit integer is parsed from its decimal digits with an optional sign |
| `TypeChecker.DigitsHaveTheirPlace` | runtime/rust_rt/src/type_checker.rs:56-57 | in any radix up to 36 a letter or digit counts for its place, in either case, and nothing else is a digit |
| `TypeChecker.SameTypeIsCompatible` | runtime/rust_rt/src/type_checker.rs:112-156 | on well-formed descriptors the check never panics and is true exactly when the map levels are equal and what is inside is equal or fits |
| `TypeChecker.SameTypeIsPreorder` | runtime/rust_rt/src/type_checker.rs:112-156 | the check is total, reflexive and transitive on well-formed descriptors |
| `TypeChecker.CompatibleBothWaysIff` | runtime/rust_rt/src/type_checker.rs:132-146 | descriptors are compatible both ways exactly when they are equal up to arrays of the same member size and length |
| `TypeChecker.SameTypeDecidesCastable` | runtime/rust_rt/src/type_checker.rs:112-156 | on written descriptors of types the check decides the relation on types, so it compares the true lengths |
| `Streams.BytesRoundTrip` | compiler/reader/BIRFileReader.cpp:78-97 | the big-endian bytes of a number are read back as the number |
| `Streams.S4IsBigEndian` | compiler/reader/BIRFileReader.cpp:78-86 | four bytes are read the highest first, as a signed number |
| `Streams.ReadsS4` | compiler/reader/BIRFileReader.cpp:78-86 | a signed 32-bit number is read back from its four bytes |
| `Streams.ReadsS8` | compiler/reader/BIRFileReader.cpp:89-97 | a signed 64-bit number is read back from its eight bytes |
| `Streams.ReadsF8` | compiler/reader/BIRFileReader.cpp:100-108 | a float is read back bit for bit |
| `Streams.SkipRoundTrip` | compiler/reader/ConstantPool.cpp:127-308 | reading and dropping any part of the format stops exactly after it |
| `Streams.BirFileReader.ReadAndDrop` | compiler/reader/ConstantPool.cpp:127-308 | the reading loops over dropped parts stop where the layout says, or abort on a negative vector size |
| `ConstantPools.BodyRoundTrip` | compiler/reader/ConstantPool.cpp:99-358 | the body of a shape of any type tag is read back, the dropped parts passed over |
| `ConstantPools.EntryRoundTrip` | compiler/reader/ConstantPool.cpp:395-443 | an entry of any of the seven tags is read back and reading stops at the next byte |
| `ConstantPools.PoolRoundTrip` | compiler/reader/ConstantPool.cpp:389-444 | reading the encoding of a pool anywhere in a stream gives the pool and stops at the next byte |
| `ConstantPools.EntriesAreFoundIff` | compiler/reader/ConstantPool.cpp:447-483 | the lookups of strings, integers, floats, bytes and type tags answer exactly what the entry at the index holds |
| `ConstantPools.TypeIsFoundIff` | compiler/reader/ConstantPool.cpp:490-524 | a type is found exactly where a named shape stands for it: mappings and arrays by the tag of the shape they mention |
| `ConstantPools.InvocableIsFoundIff` | compiler/reader/ConstantPool.cpp:536-553 | the type of a function is accepted exactly when it is one and all it mentions are types |
| `DroppedParts.UnionIsSkipped` | compiler/reader/ConstantPool.cpp:198-229 | the parts of a union shape, byte for byte, and reading stops after them |
| `DroppedParts.RecordIsSkipped` | compiler/reader/ConstantPool.cpp:270-295 | the same for a record |
| `DroppedParts.ObjectIsSkipped` | compiler/reader/ConstantPool.cpp:156-197 | the same for an object |
| `DroppedParts.ErrorIsSkipped` | compiler/reader/ConstantPool.cpp:127-134 | the same for an error |
| `DroppedParts.TupleIsSkipped` | compiler/reader/ConstantPool.cpp:230-242 | the same for a tuple |
| `DroppedParts.IntersectionIsSkipped` | compiler/reader/ConstantPool.cpp:243-252 | the same for an intersection |
| `DroppedParts.FiniteIsSkipped` | compiler/reader/ConstantPool.cpp:296-308 | the same for a finite type |
| `DroppedParts.TableIsSkipped` | compiler/reader/ConstantPool.cpp:257-269 | a table keeps its constraint; the rest is passed over |
| `DroppedParts.StreamIsSkipped` | compiler/reader/ConstantPool.cpp:135-142 | a stream keeps its constraint; the rest is passed over |
| `DroppedParts.ConstraintIsRead` | compiler/reader/ConstantPool.cpp:123-126 | mappings, type descriptors, futures and XML keep their constraint, and nothing follows |
| `DroppedParts.OtherKinds` | compiler/reader/ConstantPool.cpp:309-357 | arrays, functions, the types nothing follows, and the abort on a tag that no type has |
| `ConstantPools.ConstantPoolSet.ReadInvokable` | compiler/reader/ConstantPool.cpp:107-122 | the parameters of a function type are read in order |
| `ConstantPools.ConstantPoolSet.ReadBody` | compiler/reader/ConstantPool.cpp:106-357 | the switch over type tags reads what the format function says |
| `ConstantPools.ConstantPoolSet.ReadShape` | compiler/reader/ConstantPool.cpp:99-358 | a shape is read, or the reader aborts on an invalid tag |
| `ConstantPools.ConstantPoolSet.ReadEntry` | compiler/reader/ConstantPool.cpp:396-442 | one entry is added, none for an unknown tag |
| `ConstantPools.ConstantPoolSet.Read` | compiler/reader/ConstantPool.cpp:389-444 | the pool becomes what the stream holds, on every stream |
| `InsnReader.ReadOperand` | compiler/reader/BIRReadInsns.cpp:41-57 | the operand at the cursor, or an abort when the pool lacks what it mentions |
| `InsnReader.ReadStructureInsn` | compiler/reader/BIRReadInsns.cpp:176-193 | the mapping constructor at the cursor with its fields in order |
| `InsnReader.ReadConst` | compiler/reader/BIRReadInsns.cpp:200-252 | the constant, read by the type tag of its type: by ConstIsReadIff the one the entry at the index holds |
| `InsnReader.ReadConstLoadInsn` | compiler/reader/BIRReadInsns.cpp:196-253 | the constant load at the cursor |
| `InsnReader.ReadBinaryInsn` | compiler/reader/BIRReadInsns.cpp:263-269 | the operator at the cursor, operands in their places |
| `InsnReader.ReadCondBrInsn` | compiler/reader/BIRReadInsns.cpp:272-279 | the conditional branch at the cursor |
| `InsnReader.ReadFuncCallInsn` | compiler/reader/BIRReadInsns.cpp:289-310 | the call at the cursor; an operand of no kind when it has no result |
| `InsnReader.ReadTypeCastInsn` | compiler/reader/BIRReadInsns.cpp:313-322 | the cast at the cursor |
| `InsnReader.ReadArrayInsn` | compiler/reader/BIRReadInsns.cpp:334-346 | the array creation at the cursor, its initial values dropped |
| `InsnReader.ReadAccessInsn` | compiler/reader/BIRReadInsns.cpp:349-386 | the array or mapping access at the cursor |
| `InsnReader.ReadByKind` | compiler/reader/BIRReadInsns.cpp:68-152 | the switch over instruction kinds, the abort on an unsupported one included |
| `InsnReader.BlockBuilder.ReadInsn` | compiler/reader/BIRReadInsns.cpp:59-153 | an instruction is appended to the block, or replaces its terminator, or adds nothing |
| `InsnReader.BlockList.ReadBasicBlock` | compiler/reader/BIRReadBasicBlock.cpp:24-37 | the block at the cursor is appended; in ignore mode the cursor ends at the same place and the list is as before |
| `InsnFormat.OperandRoundTrip` | compiler/reader/BIRReadInsns.cpp:41-57 | an operand is read back from its encoding, global or not, and reading stops at the next byte |
| `InsnFormat.FieldRoundTrip` | compiler/reader/BIRReadInsns.cpp:156-167 | a spread or key-value field is read back |
| `InsnFormat.ConstIsReadIff` | compiler/reader/BIRReadInsns.cpp:200-252 | a constant of any type is read exactly when the entry at the written index, or the byte, is it; otherwise reading aborts |
| `InsnFormat.CallRoundTrip` | compiler/reader/BIRReadInsns.cpp:289-310 | a call is read back with its arguments in order |
| `InsnFormat.KindRoundTrip` | compiler/reader/BIRReadInsns.cpp:68-152 | each of the supported kinds of instruction is read back |
| `InsnFormat.InsnRoundTrip` | compiler/reader/BIRReadInsns.cpp:59-153 | an instruction with its debug position is read back, the position dropped |
| `InsnFormat.CodeIsInOrder` | compiler/reader/BIRReadBasicBlock.cpp:29-33 | the code of a block is the instructions read that add something, in order, and its terminator is the last one read |
| `InsnFormat.BlockRoundTrip` | compiler/reader/BIRReadBasicBlock.cpp:24-37 | a block is read back with its instructions and terminator, or aborts exactly when the pool lacks something it mentions |
| `FunctionReader.IgnoreFunction` | compiler/reader/BIRReadFunction.cpp:28-38 | true exactly for names that begin with one of the six ignored prefixes |
| `FunctionReader.ReadHeader` | compiler/reader/BIRReadFunction.cpp:60-86 | the names and flags of the function at the cursor, position and annotations dropped |
| `FunctionReader.ReadParams` | compiler/reader/BIRReadFunction.cpp:147-159 | each parameter takes the front of the queue of names |
| `FunctionReader.ReadLocalVar` | compiler/reader/BIRReadFunction.cpp:40-56 | the variable at the cursor; its kind decides how much is dropped |
| `FunctionReader.ReadDefaults` | compiler/reader/BIRReadFunction.cpp:167-173 | the blocks of default values are read and none is kept |
| `FunctionReader.ReadBlocks` | compiler/reader/BIRReadFunction.cpp:176-180 | the blocks at the cursor are appended in order, or dropped |
| `FunctionReader.FunctionList.ReadFunction` | compiler/reader/BIRReadFunction.cpp:58-189 | the function at the cursor is appended; ignored by the caller or by name, the cursor ends at the same place and the list is as before |
| `FunctionFormat.ParamsRoundTrip` | compiler/reader/BIRReadFunction.cpp:147-159 | the parameters are read back, the k-th with the k-th name |
| `FunctionFormat.LocalRoundTrip` | compiler/reader/BIRReadFunction.cpp:40-56 | a local variable of any kind is read back |
| `FunctionFormat.DefaultsRoundTrip` | compiler/reader/BIRReadFunction.cpp:167-173 | the blocks of default values are passed over exactly |
| `DroppedParts.TablesAreSkipped` | compiler/reader/BIRReadFunction.cpp:98-135 | the rest parameter, the receiver and the tables of a function, byte for byte, and reading stops after them |
| `FunctionFormat.FunctionRoundTrip` | compiler/reader/BIRReadFunction.cpp:58-189 | reading the encoding of a function anywhere in a stream gives the function and stops at the next byte |
| `PackageReader.PackageBuilder.ReadGlobalVar` | compiler/reader/BIRReadPackage.cpp:25-39 | the global variable at the cursor is appended, its documentation passed over |
| `PackageReader.PackageBuilder.ReadDefinitions` | compiler/reader/BIRReadPackage.cpp:43-108 | the identity and the global variables; imports, constants and type definitions are passed over |
| `PackageReader.PackageBuilder.ReadFunctions` | compiler/reader/BIRReadPackage.cpp:122-126 | the functions at the cursor are appended in order but for the ignored ones, or all dropped |
| `PackageReader.PackageBuilder.ReadTypeBody` | compiler/reader/BIRReadPackage.cpp:112-119 | attached functions and referenced types are read and leave the package as before |
| `PackageReader.PackageBuilder.ReadModule` | compiler/reader/BIRReadPackage.cpp:41-129 | the module at the cursor, or an abort, on every stream |
| `PackageReader.Deserialize` | compiler/reader/BIRFileReader.cpp:27-35 | the package a file holds: the constant pool and then the module, on every byte sequence |
| `PackageFormat.GlobalRoundTrip` | compiler/reader/BIRReadPackage.cpp:25-39 | a global variable is read back |
| `PackageFormat.FunctionsRoundTrip` | compiler/reader/BIRReadPackage.cpp:122-126 | a list of functions is read back without the ignored ones |
| `PackageFormat.TypesRoundTrip` | compiler/reader/BIRReadPackage.cpp:110-120 | the bodies of type definitions are passed over exactly |
| `PackageFormat.ModuleRoundTrip` | compiler/reader/BIRReadPackage.cpp:41-129 | a module is read back and reading stops at the next byte |
| `DroppedParts.DefinitionsAreSkipped` | compiler/reader/BIRReadPackage.cpp:77-102 | the constants and type definitions of a module, byte for byte, and reading stops after them |
| `DroppedParts.ImportsAreSkipped` | compiler/reader/BIRReadPackage.cpp:73-75 | twelve bytes are passed over for each import |
| `PackageReader.IdentityIsFoundIff` | compiler/reader/BIRReadPackage.cpp:43-65 | the three names of a package entry, and none for any other entry |
| `PackageFormat.FileRoundTrip` | compiler/reader/BIRFileReader.cpp:27-35 | reading the encoding of a whole file, whatever follows it, gives the package it stands for |
| `Linking.LinkedKeepsNames` | compiler/reader/BIRReadPackage.cpp:104-126 | from what is read to what is translated, functions, blocks, instructions and global variables keep their number, order and names; that they keep all else is WrittenIsCompiled |
| `Linking.NativeIsABit` | compiler/bir/Function.cpp:53 | a function is external exactly when the second bit of its flags is set |
| `WrittenFiles.NotIgnored` | compiler/reader/BIRReadFunction.cpp:28-38 | the functions dropped by name are those that begin with one of six prefixes |
| `WrittenFiles.WrittenIsCompiled` | compiler/driver.cpp:61-64 | for every well-formed package the format can express, the file written for it, spelled with the numbers of the format, is compiled as that very package: each instruction, operand, constant, type, kind and target |
| `WrittenFiles.WrittenMeaningPreserved` | compiler/driver.cpp:61-64 | so the code emitted for the file of any such package means what the package means |
| `Compilation.Compile` | compiler/driver.cpp:61-64 | from the bytes of a file to the module emitted for the package it holds, on every byte sequence; which package that is, WrittenIsCompiled says |
| `Compilation.FileMeaningPreserved` | compiler/driver.cpp:61-64 | a file that stands for a well-formed package of the translated language is read as that package, and for every function, matching arguments and number of steps the code emitted for it preserves the meaning |
| `DoublingFile.FileHoldsDoubles` | compiler/driver.cpp:61-64 | the bytes of one file are read as the package of EmittedCodeDoubles |

## Left out

- MeaningPreserved: external functions take scalars and values of type any, and return scalars; a mapping passed to one could change behind the caller's back, and a result of type any would need a box that the external function makes.
- RunSimulated: from the place on where malloc fails for a box, a new key meets a full table of 2^63 slots, or a merge has too many keys, nothing more is promised; the language has no such limit. Exhaustion.ExhaustedIff says there is no other.
- StartSimulated: variables that have no value yet are unset rather than zero, so a package that reads one is stuck and nothing is promised for it. Progress.StuckIff says when that is.
- OperatorFaithfulIff: float arithmetic and comparison are functions shared by both sides.
- SimulateCast: the conversion of a float to an integer is one function, shared by the language and the emitted instruction, so its rounding and what it does out of range are not compared; and a union type admits every integer and boolean, so a cast to a union never panics.
- OperatorFaithfulIff: exclusive or is for integers, the only type for which the language has it here.
- InitHashtable: the storage of a table is always allocated; the allocator of the runtime aborts when it cannot.
- SetElement: arithmetic on indices that leaves 64 bits is a panic, as in a build with overflow checks; the wrap-around of a build without them is not modelled, nor are failed allocations and layouts too large for the allocator.
- ReadFunction: the source-file name a function leaves in its package is not kept, nor are debug positions.
- Mappings hold integers only, as the generator requires, and values inside `any` are integers and booleans; mappings and nil in `any` words are not modelled.
- Outside the language of the simulation are casts for which the generator emits a bitcast and no store, which the builder emits here too; calls without a result and calls of `main`; and the TypeTest, TypeDesc and array instructions, which the reader reads.
- A nil constant loaded into a global that has the name of the return variable of `main` is excluded from the simulation; the generator compares names only and drops it, as VisitConstLoad says.
- A module that defines a function with the name of a conversion or runtime function is not modelled.
- Names that LLVM makes unique, alignments, string headers and the string table of the module are not modelled; a string constant is its bytes.
- The shortcut of string equality for identical pointers, which changes no answer.
- Reading a type does not keep its name; the file reader gives an unnamed type a random one. A value of an enumeration outside its list is kept as the byte read.
- What the reader does on an index outside the pool, an entry of another tag or a parameter without a name is one outcome, the abort; without assertions it would be undefined.
- The parts of a shape and the tables of a function that are read and dropped are given by layouts, and one method reads any layout, in place of one method for each.
- ReadDefinitions: a count of imports whose size in bytes is not a 32-bit number, for which the product in the source is undefined, is the abort.
- WrittenIsCompiled: the file written has no debug positions, documentation, imports or tables, and the packages are those whose names are strings of bytes, whose functions have none of the six ignored prefixes, and whose sizes fit in 31 bits; a parameter is of the ARG kind, as the format has no other, and the member type of a variable that is no mapping is nil.
- Compile: the file is given by its bytes, and a package outside the translated language or not well formed gives no module; the source would stop in an assertion or emit code nothing is said about. The name of the module is not kept.
- Rest parameters, Windows, where `unsigned long` has 32 bits, garbage collection, the print and foreign-function wrappers, the `Vec` arrays, file access and the driver.

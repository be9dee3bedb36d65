# Verification of M1Switch

A Dafny model of the algorithms and state machines inside the M1Switch
emulator, with proofs. Each file is one module.

## What is modelled

**Shader compiler.** `ShaderIr` is the representation between decoder and
emitter and gives the scalar instructions a meaning on a register file of 256
words, for any interpretation of the float operations. `MaxwellDecoder` takes
words apart, turns them into instructions and cuts a shader out of a memory
window. `SpirvEmitter` is the emitter as an object that appends words, hands out
ids and updates its fields; `EmitterSpec` says as functions what it emits:
prologue, register variables, a recipe for each opcode, and the control-flow
pass. `Spirv` is the physical form of a module, `SpirvMachine` the meaning of
the emitted instructions. `EmitterLayout`, `EmitterIds`, `LabelPlacement`, `RecipeMeaning`,
`FloatInstructions`, `CompilerCorrectness`, `SemanticPreservation` and `BinaryToSpirv` hold the
theorems, from word counts up to the result that the words emitted for a shader
found in memory compute what its machine words say. `EmitterLowering` writes the
recipes out in the order the emitter adds them.

`Emitter.Emit` is proved equal to `EmitterSpec.ModuleWords`, given the texture
variable and the bound that earlier calls left. The theorems about module words
hold for every such pair, so they hold of every call in any sequence of calls.

**Kernel event.** `KernelEvent` has Signal, Clear and Wait as steps of any number
of threads over one flag, one mutex and one condition variable, with spurious
wake-ups and time-outs at any moment.

**Codecs.** `Lz4` is the block decoder, writing its output in place and reading
it back for matches. `AesCtr` is counter-mode decryption with a seek, the block
cipher a parameter that may fail.

**Services.** `IpcMessage` is the layout of requests and responses, `IpcManager`
the session table, domain objects and request handling, with the services a
parameter, and `IpcRuns` what holds over lists of operations on the manager.
`NvMap` is the carveout allocator and its handles.

**GPU commands.** `GPFifo` is the pushbuffer parser, `StateTracker` the draw
registers of the 3D engine and the queue of draws.

**Debugging.** `TraceEngine` is the ring buffer against an append-only log,
`Debugger` the overlay of breakpoints on code memory, `SvcPatcher` the patching
of system calls with the trap that undoes it, `DebugCommand` the command printer
and parser.

`Common` holds the types that several modules share, `Arithmetic` the facts about
division and powers of two, `Sequences` the laws of concatenation.

## Main results

- The words emitted for a shader found in memory run to the register file its
  machine words describe (`BinaryToSpirv.BinaryComputes`, with
  `SemanticPreservation.EmittedCodeSimulates` and `BinaryToSpirv.CutExact`).
- The emitter object computes exactly `EmitterSpec.ModuleWords`
  (`SpirvEmitter.Emitter.Emit`). The rows of the other members of
  `SpirvEmitter.Emitter` are the steps of this one refinement, one for each case
  of the code.
- Every module is laid out as the physical and logical layout ask, and its result
  ids are unique (`EmitterLayout.PhysicalLayout`, `EmitterLayout.SectionOrder`,
  `EmitterIds.ResultIdsUnique`).
- A float instruction's code does what the instruction says, modifiers and guard
  included, exactly when its opcode has a right number and it has no modifier and
  no guard (`FloatInstructions.FloatInstExact`, and for machine words
  `FloatInstructions.FloatWordExact`).
- Every label the module refers to is placed exactly when each reference goes to
  the block behind a guarded branch, or back (`LabelPlacement.LabelsPlacedExact`).
- No wake-up is lost and every Wait returns what its own last check saw
  (`KernelEvent.Reachable`, `KernelEvent.NoLostWakeup`,
  `KernelEvent.OutcomeObserved`).
- An object issued by a service is reached by every later request naming it until
  its session is closed (`IpcRuns.ObjectIssued`, `IpcRuns.RequestReaches`), a
  closed session's id never lives again (`IpcRuns.NeverReused`), and a guest that
  asks for a service by name gets a new session for it (`IpcRuns.ServiceGot`),
  whatever services ask of the manager while they answer.
- Decoding inverts encoding, with the exact condition where it does not
  (`Lz4.RoundTrip`, `Lz4.BlockExact`, `IpcMessage.ResponseReads`,
  `GPFifo.RoundTrip`, `GPFifo.PacketExact`, `DebugCommand.RoundTrip`,
  `SvcPatcher.TrapInverts`).
- Decryption gives the same bytes in any chunks, and the seek is exact when no
  byte overflows (`AesCtr.ChunksAreWhole`, `AesCtr.SeekExact`).
- A query of the trace returns exactly the newest matches
  (`TraceEngine.NewestComplete`). After any use of the debugger restoring the
  breakpoints brings back the code (`Debugger.Debug`, with the exact condition in
  `Debugger.EmuDebugger.RestoreBreakpoints`). After any requests for memory the
  objects lie apart and under handles of their own (`NvMap.Serve`). A pushbuffer
  cut anywhere queues the same draws (`StateTracker.SplitPush`).

## Where the code does not do what it is meant to do

Each of these is a lemma or a contract, with the exact condition where there is
one.

- A texture or memory instruction whose second word looks like EXIT makes the
  cut at the first EXIT word lose the rest of the shader
  (`BinaryToSpirv.CutExact`, `CutCanLose`).
- FEX2 and FLG2, and the multi-function operations of the same names, are emitted
  with the extended-set numbers of asinh and atanh
  (`RecipeMeaning.ExponentsComputed`). FSIN, FCOS and the other multi-function
  numbers without a case copy their source. Of the instructions without modifiers
  and guard no other float opcode goes wrong, and each of these does
  (`RecipeMeaning.FloatExact`).
- Negated and absolute sources, saturation and guards are dropped
  (`FloatInstructions.ModifiersDropped`), for every opcode
  (`FloatInstructions.ModifiersIgnored`); only the guards of branches are read.
  A float instruction with any of them goes wrong
  (`FloatInstructions.FloatInstExact`).
- A label reserved for a later block is lost when the block is reached, so the
  branch of a plain conditional goes nowhere (`LabelPlacement.ConditionalLost`).
- The decoder's error list is empty after every call
  (`MaxwellDecoder.Decoder.Decode`).
- A counter seek drops carries, so it is exact only when no byte overflows
  (`AesCtr.SeekExact`).
- A match or a run of literals of 2^32 bytes or more is shortened and the decoder
  loses step (`Lz4.BlockExact`), which the output need not show
  (`Lz4.WrapUnnoticed`).
- A breakpoint on a zero word can never be taken back (`Debugger.StuckLost`).
- No trap reaches the debugger, because only system calls are cached
  (`SvcPatcher.NeverToDebugger`).
- Patching a buffer twice returns an empty list of calls the second time
  (`SvcPatcher.PatchTwice`).
- The 0x20001st NvMap object shares its handle with the first
  (`NvMap.FirstCollision`).
- The allocation ioctl replies zero whether it placed the object or not
  (`NvMap.NvMapTable.HandleAlloc`), and the convenience call allocates nothing
  (`NvMapAlloc`).
- A non-domain response is not recognised as recycled when its word count is a
  multiple of 1024, and a domain response never is
  (`IpcMessage.ResponseAsRequest`, `DomainResponseNotRecycled`).
- Data words behind a host method are read as command headers, whatever the kind
  of packet (`GPFifo.HostDataParsed`), so a packet parses to what was encoded if
  and only if it is no host method or has no data words (`GPFifo.PacketExact`).
- A quote in a debug command, or a closing bracket in an argument, does not
  survive printing and parsing (`DebugCommand.RoundTrip`).

## Conventions

Words, ids, sizes and positions are unbounded naturals where the code's widths
play no part; where they do (program counters, label targets, integer
arithmetic, LZ4 lengths, counter bytes, handles, step addresses) the wrap-around
is written out. Locks are left out where a call holds one from start to end. Log
output is left out everywhere.

## Model

| member | source | states |
|---|---|---|
| `SpirvEmitter.Emitter.constructor` | src/gpu/shader/SpirvEmitter.cpp:11 | a new emitter has bound 0 and no texture variable |
| `SpirvEmitter.Emitter.AllocId` | src/gpu/shader/SpirvEmitter.cpp:66-70 | the id is the old next id, the next id is one more, and the bound covers it without ever going down |
| `SpirvEmitter.Emitter.EmitWord` | src/gpu/shader/SpirvEmitter.cpp:72-74 | appends exactly one word |
| `SpirvEmitter.Emitter.EmitWords` | src/gpu/shader/SpirvEmitter.cpp:76-78 | appends exactly the span |
| `SpirvEmitter.Emitter.EmitString` | src/gpu/shader/SpirvEmitter.cpp:80-93 | appends the bytes of the string and its terminator, four to a word with the first in the low bits, padded with zeros |
| `SpirvEmitter.Emitter.PackWord` | src/gpu/shader/SpirvEmitter.cpp:83-91 | one word of a string, little-endian, zero past the end |
| `SpirvEmitter.Emitter.EmitInst` | src/gpu/shader/SpirvEmitter.cpp:95-137 | the words appended are one instruction: word count and opcode, then the operands; the words stay the encoding of the instructions so far |
| `SpirvEmitter.Emitter.EmitHeader` | src/gpu/shader/SpirvEmitter.cpp:143-149 | magic, version, generator, bound (patched at the end), schema |
| `SpirvEmitter.Emitter.EmitOp` | src/gpu/shader/SpirvEmitter.cpp:447-451 | one instruction with a result type, a fresh result id and the operands |
| `SpirvEmitter.Emitter.EmitExtInst` | src/gpu/shader/SpirvEmitter.cpp:17-29 | one GLSL.std.450 instruction through the imported set, under a fresh id |
| `SpirvEmitter.Emitter.EmitDecl` | src/gpu/shader/SpirvEmitter.cpp:176-244 | one declaration whose fresh id is its first operand |
| `SpirvEmitter.Emitter.EmitPointer` | src/gpu/shader/SpirvEmitter.cpp:206-210 | a pointer type of a storage class |
| `SpirvEmitter.Emitter.EmitNamed` | src/gpu/shader/SpirvEmitter.cpp:1990-2024 | an instruction with a string among its operands carries a word count that fits its words exactly |
| `SpirvEmitter.Emitter.Begin` | src/gpu/shader/SpirvEmitter.cpp:1976-1987 | forgets the previous module but keeps its texture variable and remembers its bound |
| `SpirvEmitter.Emitter.EmitCapabilities` | src/gpu/shader/SpirvEmitter.cpp:155-170 | the shader capability, and one more when textures are used |
| `SpirvEmitter.Emitter.EmitShaderIo` | src/gpu/shader/SpirvEmitter.cpp:1607-1617 | the input and output ids: four for vertex shaders, two for fragment shaders, none otherwise |
| `SpirvEmitter.Emitter.EmitModuleHead` | src/gpu/shader/SpirvEmitter.cpp:1987-2028 | capabilities, import, memory model, entry point with its interface, execution mode; import and function take ids 1 and 2 |
| `SpirvEmitter.Emitter.EmitDecoration` | src/gpu/shader/SpirvEmitter.cpp:293-295 | one decoration |
| `SpirvEmitter.Emitter.EmitIoDecorations` | src/gpu/shader/SpirvEmitter.cpp:2030-2038 | locations and the position built-in for the stage's inputs and outputs |
| `SpirvEmitter.Emitter.EmitCbufDecorations` | src/gpu/shader/SpirvEmitter.cpp:2049-2051 | array stride, descriptor set and binding of the constant buffer |
| `SpirvEmitter.Emitter.EmitTextureDecorations` | src/gpu/shader/SpirvEmitter.cpp:2054-2058 | descriptor set and binding of the texture variable |
| `SpirvEmitter.Emitter.EmitDecorations` | src/gpu/shader/SpirvEmitter.cpp:2030-2058 | all annotations, with the ids they need handed out first; without textures the texture variable of the previous module stays |
| `SpirvEmitter.Emitter.EmitScalarTypes` | src/gpu/shader/SpirvEmitter.cpp:250-254 | void, bool, float and the two integers under consecutive ids |
| `SpirvEmitter.Emitter.EmitVectorTypes` | src/gpu/shader/SpirvEmitter.cpp:256-264 | vectors of two, three and four components under consecutive ids |
| `SpirvEmitter.Emitter.EmitPointerTypes` | src/gpu/shader/SpirvEmitter.cpp:266-271 | pointers for registers, inputs, outputs and uniforms |
| `SpirvEmitter.Emitter.EmitImageTypes` | src/gpu/shader/SpirvEmitter.cpp:273-277 | the image type, the pointer to it and the sampled image |
| `SpirvEmitter.Emitter.EmitCbufTypes` | src/gpu/shader/SpirvEmitter.cpp:279-286 | the constant-buffer types reuse the ids handed out for their decorations |
| `SpirvEmitter.Emitter.BuildBaseTypes` | src/gpu/shader/SpirvEmitter.cpp:246-287 | the whole type section, and every type field holds the id declared for it |
| `SpirvEmitter.Emitter.EmitConstantF32` | src/gpu/shader/SpirvEmitter.cpp:321-327 | a float constant of given bits under a fresh id |
| `SpirvEmitter.Emitter.EmitConstantBool` | src/gpu/shader/SpirvEmitter.cpp:343-349 | true and false have opcodes of their own |
| `SpirvEmitter.Emitter.EmitConstants` | src/gpu/shader/SpirvEmitter.cpp:2062-2065 | zero, one, true and false, remembered in the constant fields |
| `SpirvEmitter.Emitter.EmitIoVariables` | src/gpu/shader/SpirvEmitter.cpp:2067-2075 | the variables of the stage's inputs and outputs under the ids handed out for the entry point |
| `SpirvEmitter.Emitter.EmitGlobalVariables` | src/gpu/shader/SpirvEmitter.cpp:2067-2092 | inputs, outputs, constant buffer and, when used, the texture variable |
| `SpirvEmitter.Emitter.EmitFunctionStart` | src/gpu/shader/SpirvEmitter.cpp:2094-2101 | function type, function and entry label |
| `SpirvEmitter.Emitter.EmitGlobals` | src/gpu/shader/SpirvEmitter.cpp:1987-2101 | everything before the function body, with all fields holding the ids the body refers to |
| `SpirvEmitter.Emitter.AddVariable` | src/gpu/shader/SpirvEmitter.cpp:815-832 | a register operand gets a variable the first time it is named |
| `SpirvEmitter.Emitter.BuildGprMap` | src/gpu/shader/SpirvEmitter.cpp:808-836 | the map and the declarations are those of a fold over destinations and sources in order of first use |
| `SpirvEmitter.Emitter.EmitCopy` | src/gpu/shader/SpirvEmitter.cpp:1619-1631 | one input copied to one output |
| `SpirvEmitter.Emitter.EmitIoBody` | src/gpu/shader/SpirvEmitter.cpp:1619-1631 | the pass-through of inputs to outputs for the stage |
| `SpirvEmitter.Emitter.LoadGpr` | src/gpu/shader/SpirvEmitter.cpp:853-857 | a load under a fresh id for a register with a variable; 0 and nothing emitted otherwise |
| `SpirvEmitter.Emitter.StoreGpr` | src/gpu/shader/SpirvEmitter.cpp:859-862 | a store for a register with a variable, nothing otherwise |
| `SpirvEmitter.Emitter.LoadOne` | src/gpu/shader/SpirvEmitter.cpp:958-961 | the first source; nonzero exactly when it has a variable |
| `SpirvEmitter.Emitter.LoadTwo` | src/gpu/shader/SpirvEmitter.cpp:896-901 | both sources; both nonzero exactly when both have variables |
| `SpirvEmitter.Emitter.LoadThree` | src/gpu/shader/SpirvEmitter.cpp:880-886 | three sources; all nonzero exactly when all have variables |
| `SpirvEmitter.Emitter.Sources` | src/gpu/shader/SpirvEmitter.cpp:880-894 | the common guard of the cases: too few sources emit nothing, a source without variable ends the lowering after the loads |
| `SpirvEmitter.Emitter.StoreResult` | src/gpu/shader/SpirvEmitter.cpp:888-891 | loads, steps and store together are exactly the recipe's code |
| `SpirvEmitter.Emitter.StorePredicate` | src/gpu/shader/SpirvEmitter.cpp:1257-1268 | the predicate's variable is declared on first use, with its pointer type, inside the function; later stores reuse it |
| `SpirvEmitter.Emitter.EmitFloatBinary` | src/gpu/shader/SpirvEmitter.cpp:896-922 | FADD and FMUL: two loads, one operation, one store |
| `SpirvEmitter.Emitter.EmitFloatExt2` | src/gpu/shader/SpirvEmitter.cpp:1164-1188 | FMAX and FMIN through the extended set |
| `SpirvEmitter.Emitter.EmitFloatExt1` | src/gpu/shader/SpirvEmitter.cpp:1190-1200 | one-source functions of the extended set (FABS, FRSQ, FSQRT, FEX2, FLG2, most of MUFU) |
| `SpirvEmitter.Emitter.EmitMulAdd` | src/gpu/shader/SpirvEmitter.cpp:880-894 | FMAD: a product, then a sum |
| `SpirvEmitter.Emitter.EmitFloatNeg` | src/gpu/shader/SpirvEmitter.cpp:958-968 | FNEG |
| `SpirvEmitter.Emitter.EmitClamp` | src/gpu/shader/SpirvEmitter.cpp:1509-1519 | FSAT: clamp between the constants zero and one |
| `SpirvEmitter.Emitter.EmitReciprocal` | src/gpu/shader/SpirvEmitter.cpp:1522-1532 | FRCP: the constant one divided by the source |
| `SpirvEmitter.Emitter.EmitIntBinary` | src/gpu/shader/SpirvEmitter.cpp:924-956 | IADD, ISUB and IMUL between bitcasts |
| `SpirvEmitter.Emitter.EmitIntTernary` | src/gpu/shader/SpirvEmitter.cpp:1032-1050 | IMAD and IADD3 between bitcasts |
| `SpirvEmitter.Emitter.EmitIntNeg` | src/gpu/shader/SpirvEmitter.cpp:970-983 | INEG between bitcasts |
| `SpirvEmitter.Emitter.EmitIntAbs` | src/gpu/shader/SpirvEmitter.cpp:1202-1215 | IABS through the extended set between bitcasts |
| `SpirvEmitter.Emitter.EmitToInt` | src/gpu/shader/SpirvEmitter.cpp:1052-1064 | F2I: conversion, then bitcast |
| `SpirvEmitter.Emitter.EmitToFloat` | src/gpu/shader/SpirvEmitter.cpp:1066-1078 | I2F: bitcast, then conversion |
| `SpirvEmitter.Emitter.EmitShift` | src/gpu/shader/SpirvEmitter.cpp:1325-1358 | SHL and SHR: a signed value, an unsigned amount |
| `SpirvEmitter.Emitter.EmitBitExtract` | src/gpu/shader/SpirvEmitter.cpp:1361-1378 | BFE on unsigned words |
| `SpirvEmitter.Emitter.EmitBitInsert` | src/gpu/shader/SpirvEmitter.cpp:1380-1400 | BFI: the count is the constant 32, declared in the function |
| `SpirvEmitter.Emitter.EmitIntMax` | src/gpu/shader/SpirvEmitter.cpp:1417-1436 | IMNMX always selects the maximum |
| `SpirvEmitter.Emitter.EmitFloatSet` | src/gpu/shader/SpirvEmitter.cpp:1438-1454 | FSET: one or zero by equality |
| `SpirvEmitter.Emitter.EmitAddress` | src/gpu/shader/SpirvEmitter.cpp:1457-1474 | LEA: the second source is shifted by a constant two, declared in the function, and added |
| `SpirvEmitter.Emitter.EmitConstantLoad` | src/gpu/shader/SpirvEmitter.cpp:1080-1094 | LDC: a load through the constant buffer at a register's index |
| `SpirvEmitter.Emitter.EmitSample` | src/gpu/shader/SpirvEmitter.cpp:1147-1162 | TEX: one coordinate used twice, sampled at lod zero; without a texture variable only the coordinate is loaded |
| `SpirvEmitter.Emitter.EmitPass` | src/gpu/shader/SpirvEmitter.cpp:1299-1323 | I2I, F2F, POPC, FLO, PRMT, LD, ST: the first source is stored unchanged |
| `SpirvEmitter.Emitter.EmitSpecialRegister` | src/gpu/shader/SpirvEmitter.cpp:985-993 | S2R stores the constant zero |
| `SpirvEmitter.Emitter.EmitIntCompare` | src/gpu/shader/SpirvEmitter.cpp:1246-1271 | ISETP compares for equality only and stores a predicate |
| `SpirvEmitter.Emitter.EmitFloatCompare` | src/gpu/shader/SpirvEmitter.cpp:1273-1295 | FSETP compares for equality only and stores a predicate |
| `SpirvEmitter.Emitter.EmitFallback` | src/gpu/shader/SpirvEmitter.cpp:1588-1597 | opcodes without a case copy their first source when they write a register |
| `SpirvEmitter.Emitter.EmitMufu` | src/gpu/shader/SpirvEmitter.cpp:1096-1145 | the multi-function unit by its operation number; unknown numbers pass the source |
| `SpirvEmitter.Emitter.EmitFloat` | src/gpu/shader/SpirvEmitter.cpp:880-1585 | every float opcode has its recipe |
| `SpirvEmitter.Emitter.EmitInt` | src/gpu/shader/SpirvEmitter.cpp:924-1507 | every integer opcode has its recipe |
| `SpirvEmitter.Emitter.EmitSpecial` | src/gpu/shader/SpirvEmitter.cpp:985-1415 | S2R, PRMT, BFE, BFI and the fallback |
| `SpirvEmitter.Emitter.EmitOther` | src/gpu/shader/SpirvEmitter.cpp:995-1454 | conversions, comparisons, memory and texture opcodes |
| `SpirvEmitter.Emitter.EmitShaderInst` | src/gpu/shader/SpirvEmitter.cpp:842-1601 | what one instruction emits, the ids it takes and the predicates it declares, for every opcode |
| `SpirvEmitter.Emitter.ReserveLabel` | src/gpu/shader/SpirvEmitter.cpp:1714-1722 | the label of a pc, reserved once |
| `SpirvEmitter.Emitter.BeginBlock` | src/gpu/shader/SpirvEmitter.cpp:1798-1804 | a block start without a label emits one under a fresh id, even when a label was reserved for it |
| `SpirvEmitter.Emitter.FindPair` | src/gpu/shader/SpirvEmitter.cpp:1823-1842 | the first pair that starts at a pc |
| `SpirvEmitter.Emitter.HandleSync` | src/gpu/shader/SpirvEmitter.cpp:1807-1817 | SYNC pops the innermost entry when it ends there |
| `SpirvEmitter.Emitter.HandleSsy` | src/gpu/shader/SpirvEmitter.cpp:1822-1844 | SSY reserves its labels and pushes an entry |
| `SpirvEmitter.Emitter.EmitMerge` | src/gpu/shader/SpirvEmitter.cpp:1849-1859 | the deferred merge instruction, emitted at most once for an entry |
| `SpirvEmitter.Emitter.EmitBranch` | src/gpu/shader/SpirvEmitter.cpp:1863-1865 | a branch to the label reserved for a pc |
| `SpirvEmitter.Emitter.EmitCondition` | src/gpu/shader/SpirvEmitter.cpp:1898-1904 | the guard's variable, or true while the predicate was never written |
| `SpirvEmitter.Emitter.EmitGuardedBranch` | src/gpu/shader/SpirvEmitter.cpp:1871-1919 | merge, both labels, condition, branch with the negation swapped in, and the label of the block fallen into |
| `SpirvEmitter.Emitter.HandleContinue` | src/gpu/shader/SpirvEmitter.cpp:1942-1958 | CONT branches to the innermost loop's branch target |
| `SpirvEmitter.Emitter.EmitNode` | src/gpu/shader/SpirvEmitter.cpp:1791-1968 | one step of the control-flow pass |
| `SpirvEmitter.Emitter.EmitStructuredCfg` | src/gpu/shader/SpirvEmitter.cpp:1773-1970 | the whole pass is the fold of its steps over labels, stack, predicates and code |
| `SpirvEmitter.ScanBranch` | src/gpu/shader/SpirvEmitter.cpp:1658-1683 | the first branch before the pair's SYNC; backward is a loop, forward a selection |
| `SpirvEmitter.BuildCfg` | src/gpu/shader/SpirvEmitter.cpp:1635-1705 | the pairs in order and the set of block starts |
| `SpirvEmitter.Emitter.EmitFlow` | src/gpu/shader/SpirvEmitter.cpp:2120-2121 | the pass after other code adds what it adds alone |
| `SpirvEmitter.Emitter.EmitBody` | src/gpu/shader/SpirvEmitter.cpp:2107-2121 | register variables, copied inputs, then the pass |
| `SpirvEmitter.Emitter.EmitEpilogue` | src/gpu/shader/SpirvEmitter.cpp:2123-2130 | a return unless some instruction is KIL, then the end of the function |
| `SpirvEmitter.Emitter.Emit` | src/gpu/shader/SpirvEmitter.cpp:1976-2140 | the returned words are exactly the module's words for the texture variable and bound that earlier modules left, and what is left for the next module is stated; so every theorem about module words holds of every call in any sequence of calls |
| `EmitterLowering.FlowBehind` | src/gpu/shader/SpirvEmitter.cpp:1773-1970 | the pass adds the same code whatever precedes it, and never gives an id back |
| `Spirv.SplitEncode` | src/gpu/shader/SpirvEmitter.cpp:95-137 | encoded instructions are cut by their word counts into themselves with nothing left over |
| `Spirv.EncodeSplit` | src/gpu/shader/SpirvEmitter.cpp:95-137 | a stream that can be cut re-encodes to the same words |
| `EmitterLayout.PhysicalLayout` | src/gpu/shader/SpirvEmitter.cpp:80-149 | for every program the words after the header split exactly into the module's instructions (section 2.3 of the SPIR-V specification) |
| `EmitterLayout.ModuleFits` | src/gpu/shader/SpirvEmitter.cpp:95-137 | every opcode and word count of a module fits its sixteen bits |
| `EmitterLayout.SectionOrder` | src/gpu/shader/SpirvEmitter.cpp:1976-2140 | for every program without ISETP, FSETP, BFI and LEA the instructions follow the logical layout: capabilities to declarations, then the function with its variables first (section 2.4 of the SPIR-V specification) |
| `EmitterLayout.InstInBlock` | src/gpu/shader/SpirvEmitter.cpp:842-1601 | lowering an opcode other than those four emits only instructions allowed inside a block |
| `EmitterIds.InstFresh` | src/gpu/shader/SpirvEmitter.cpp:842-1601 | every lowering, of every opcode, defines only fresh ids, each once, with fitting word counts |
| `EmitterIds.RecipeFresh` | src/gpu/shader/SpirvEmitter.cpp:842-1601 | loads, steps and store of a recipe take consecutive fresh ids |
| `EmitterIds.GprsFresh` | src/gpu/shader/SpirvEmitter.cpp:808-836 | every register operand has a variable, and different registers different ones |
| `EmitterIds.DispatchInv` | src/gpu/shader/SpirvEmitter.cpp:1791-1968 | one step of the pass keeps labels distinct and results fresh, also where a label reserved before is placed or abandoned |
| `EmitterIds.FlowInv` | src/gpu/shader/SpirvEmitter.cpp:1773-1970 | through the whole pass labels are distinct, unplaced ones are undefined, and nothing at or after the current pc is placed |
| `EmitterIds.ModuleFresh` | src/gpu/shader/SpirvEmitter.cpp:1976-2140 | the sections of a module define disjoint stretches of ids |
| `EmitterIds.ResultIdsUnique` | src/gpu/shader/SpirvEmitter.cpp:66-70 | for every program with increasing pcs and whatever the emitter emitted before, each id is the result of at most one instruction and lies below the bound in word 3 |
| `LabelPlacement.StartKnown` | src/gpu/shader/SpirvEmitter.cpp:1798-1804 | a block start loses the label reserved for it and keeps every other |
| `LabelPlacement.GuardedStep` | src/gpu/shader/SpirvEmitter.cpp:1871-1922 | a guarded branch refers to its target and its fall-through and places the label of the fall-through, with the deferred merge before it |
| `LabelPlacement.DispatchStep` | src/gpu/shader/SpirvEmitter.cpp:1791-1968 | one step of the pass adds to the code the references the program has there, each label's fate known |
| `LabelPlacement.FlowSound` | src/gpu/shader/SpirvEmitter.cpp:1773-1969 | so does the whole pass: the references in the code are those of the program, in order |
| `LabelPlacement.FlowPlacedExact` | src/gpu/shader/SpirvEmitter.cpp:1773-1969 | every label referred to in the pass's code is placed if and only if every reference of the program is anchored |
| `LabelPlacement.LabelsPlacedExact` | src/gpu/shader/SpirvEmitter.cpp:1773-2110 | for every program with increasing pcs: in its module every label that a branch or merge refers to is placed if and only if each reference goes to the instruction behind a guarded branch, or to a block start already passed other than the first instruction |
| `LabelPlacement.ConditionalLost` | src/gpu/shader/SpirvEmitter.cpp:1871-1922 | a finding: the branch of a plain conditional, forward to its SYNC, goes to a label that is nowhere in the module |
| `LabelPlacement.RepetitionPlaced` | src/gpu/shader/SpirvEmitter.cpp:1871-1922 | a loop whose guarded branch back is its last instruction has all its labels placed |
| `RecipeMeaning.ScalarRecipe` | src/gpu/shader/SpirvEmitter.cpp:880-1545 | for any float operations and any source words, each scalar opcode's steps evaluate to the word the opcode computes |
| `RecipeMeaning.FloatLowered` | src/gpu/shader/SpirvEmitter.cpp:880-1545 | every float opcode with a right number computes its operation, for any float operations and any words |
| `RecipeMeaning.IntLowered` | src/gpu/shader/SpirvEmitter.cpp:924-1235 | the integer opcodes compute modulo 2^32 behind their bitcasts |
| `RecipeMeaning.MufuComputes` | src/gpu/shader/SpirvEmitter.cpp:1096-1145 | the multi-function operations with correct numbers compute what they name |
| `RecipeMeaning.ExponentsComputed` | src/gpu/shader/SpirvEmitter.h:369-370 | a finding: with the numbers the header gives them, the recipes of FEX2 and FLG2 compute asinh and atanh |
| `RecipeMeaning.Miscompiled` | src/gpu/shader/SpirvEmitter.cpp:1096-1597 | a finding: FEX2, FLG2, FSIN, FCOS and the multi-function operations other than the eight with right numbers write a wrong word, under float operations that tell the functions apart |
| `RecipeMeaning.FloatExact` | src/gpu/shader/SpirvEmitter.cpp:880-1597 | on plain sources and without a guard: a float opcode's recipe computes the function the opcode names, for all float operations and all words, if and only if it is none of FEX2, FLG2, FSIN and FCOS and its multi-function number is one of the eight right ones; a number that names no function counts as not right |
| `FloatInstructions.ModifiersDropped` | src/gpu/shader/SpirvEmitter.cpp:880-1597 | a finding: a float instruction's code runs and writes the word of the plain sources, whatever its modifiers and its guard say |
| `FloatInstructions.ModifiersIgnored` | src/gpu/shader/SpirvEmitter.cpp:866-1600 | a finding: the code of no opcode depends on the guard or on an operand modifier |
| `FloatInstructions.PlainCorrect` | src/gpu/shader/ShaderIr.h:355-358 | a rightly numbered instruction without modifiers and guard leaves the registers it should |
| `FloatInstructions.OthersWrong` | src/gpu/shader/ShaderIr.h:464-468 | every other float instruction leaves a wrong register for some float operations and some predicates, on a machine that holds them |
| `FloatInstructions.FloatInstExact` | src/gpu/shader/ShaderIr.h:355-468 | with negated and absolute sources, saturation to the range 0 to 1 and a guard that skips the instruction given their meaning: the emitted code does what the instruction says for all float operations, registers and predicates if and only if the opcode has a right number and there is neither modifier nor guard |
| `FloatInstructions.FloatDecoded` | src/gpu/shader/MaxwellDecoder.cpp:333-371 | a decoded float word is a complete instruction, and it has modifiers exactly when the modifier bits of its format are set |
| `FloatInstructions.FloatWordExact` | src/gpu/shader/MaxwellDecoder.cpp:333-725 | exactly the float words without modifier bits and with a rightly numbered opcode are compiled right |
| `CompilerCorrectness.InstSim` | src/gpu/shader/SpirvEmitter.cpp:842-1601 | one instruction's code run from related states ends in related states, leaving all other variables alone |
| `CompilerCorrectness.RecipeSim` | src/gpu/shader/SpirvEmitter.cpp:842-1601 | a recipe that evaluates to a word stores that word in its destination and leaves the other registers alone |
| `CompilerCorrectness.FlowSim` | src/gpu/shader/SpirvEmitter.cpp:1773-1970 | the code of any prefix of a straight-line program simulates that prefix |
| `SemanticPreservation.PrologueExec` | src/gpu/shader/SpirvEmitter.cpp:1987-2101 | the declarations execute without getting stuck and give types, constants and variables their meaning |
| `SemanticPreservation.ModuleRuns` | src/gpu/shader/SpirvEmitter.cpp:808-1970 | the whole module of a straight-line program runs to its return |
| `SemanticPreservation.EmittedCodeSimulates` | src/gpu/shader/SpirvEmitter.cpp:808-1970 | compiler correctness: for every straight-line program and initial register file, the emitted words split into a module that runs to its return with every register's variable holding what the program computes, and the inputs passed through |
| `SemanticPreservation.DefinedBeforeUse` | src/gpu/shader/SpirvEmitter.cpp:1791-1920 | in a straight-line program's module each instruction uses only ids defined earlier |
| `MaxwellDecoder.Decoder.DecodeOne` | src/gpu/shader/MaxwellDecoder.cpp:527-609 | decodes one or two words by format; short or unknown words are reported |
| `MaxwellDecoder.Decoder.Decode` | src/gpu/shader/MaxwellDecoder.cpp:615-674 | for every size at which the 32-bit offset cannot wrap: the instruction list up to the first decoded EXIT, and the texture flag; the reported errors are always empty afterwards, because the context's list replaces them |
| `MaxwellDecoder.Decoder.constructor` | src/gpu/shader/MaxwellDecoder.cpp:29-37 | no errors at first |
| `MaxwellDecoder.Context.constructor` | src/gpu/shader/MaxwellDecoder.cpp:622-624 | decoding starts at offset 0 without errors |
| `MaxwellDecoder.ExtractShader` | src/gpu/shader/MaxwellDecoder.cpp:761-801 | nothing for an offset outside the region; otherwise the clamped window cut after its first EXIT word |
| `MaxwellDecoder.Bits` | src/gpu/shader/MaxwellDecoder.cpp:12-15 | a bit field is below the power of two of its width |
| `BinaryToSpirv.PcsAscend` | src/gpu/shader/MaxwellDecoder.cpp:615-646 | decoded pcs are strictly increasing, word-aligned and inside the data |
| `BinaryToSpirv.DecodedIncreasing` | src/gpu/shader/MaxwellDecoder.cpp:615-646 | so decoded programs meet the emitter's condition for unique ids |
| `BinaryToSpirv.CutDecodes` | src/gpu/shader/MaxwellDecoder.cpp:783-795 | from every position up to the cut: the same instructions when decoding reaches the EXIT, otherwise all those before the cut |
| `BinaryToSpirv.CutAtFirstExit` | src/gpu/shader/MaxwellDecoder.cpp:783-792 | the cut ends right behind the first EXIT word |
| `BinaryToSpirv.NoExitNoCut` | src/gpu/shader/MaxwellDecoder.cpp:783-792 | without an EXIT word nothing is cut |
| `BinaryToSpirv.CutExact` | src/gpu/shader/MaxwellDecoder.cpp:761-801 | cutting keeps the decoded instructions if and only if decoding reaches the EXIT word or nothing after it is known |
| `BinaryToSpirv.CutFaithful` | src/gpu/shader/MaxwellDecoder.cpp:761-801 | with no memory or texture word before the first EXIT word the cut loses nothing |
| `BinaryToSpirv.CutCanLose` | src/gpu/shader/MaxwellDecoder.cpp:761-801 | a finding: a texture fetch whose second word looks like EXIT makes the cut drop the rest of the shader |
| `BinaryToSpirv.WordMeans` | src/gpu/shader/MaxwellDecoder.cpp:314-397 | a scalar word decodes to an instruction with the effect its fields describe |
| `BinaryToSpirv.ShaderMeans` | src/gpu/shader/MaxwellDecoder.cpp:615-674 | decoded instructions compute the fold of the words' effects |
| `BinaryToSpirv.BinaryComputes` | src/gpu/shader/MaxwellDecoder.cpp:761-801 | from bytes to registers: the code emitted for the shader cut out of a window computes the fold of the raw words' effects |
| `KernelEvent.StepInv` | src/kernel/Kernel.h:64-108 | every step of every thread, with spurious wake-ups and time-outs, keeps the invariant |
| `KernelEvent.NotifyInv` | src/kernel/Kernel.h:73 | notify_all leaves no thread blocked and keeps the invariant |
| `KernelEvent.Reachable` | src/kernel/Kernel.h:64-108 | every interleaving of any number of calls keeps the invariant |
| `KernelEvent.NoLostWakeup` | src/kernel/Kernel.h:68-75 | whenever a thread is blocked while the event is signaled, some signaller is between setting the flag and notify_all |
| `KernelEvent.SignalWakesAll` | src/kernel/Kernel.h:68-75 | when a Signal call ends no thread is blocked |
| `KernelEvent.MutualExclusion` | src/kernel/Kernel.h:68-102 | at most one thread is between taking and releasing the mutex |
| `KernelEvent.OutcomeObserved` | src/kernel/Kernel.h:87-102 | a finished Wait returned Success exactly when the flag was set at the last check of that same call, made under the mutex; TimedOut means it was clear there, an endless Wait never times out, and the thread did nothing between that check's return and the end |
| `KernelEvent.WaiterFinishes` | src/kernel/Kernel.h:87-102 | once the flag is set and signallers are done, a waiter left to run returns Success |
| `KernelEvent.KEvent.SignalStep` | src/kernel/Kernel.h:68-75 | one step of Signal on the fields is one step of the protocol |
| `KernelEvent.KEvent.ClearStep` | src/kernel/Kernel.h:77-80 | one step of Clear is one step of the protocol |
| `KernelEvent.KEvent.WaitStep` | src/kernel/Kernel.h:87-102 | one step of Wait is one step of the protocol |
| `KernelEvent.KEvent.Perform` | src/kernel/Kernel.h:64-108 | any event is a step of the protocol and keeps its invariant |
| `KernelEvent.KEvent.constructor` | src/kernel/Kernel.h:66 | a new event is clear and no thread is in a call |
| `Lz4.ReadLength` | src/loader/NsoLoader.cpp:51-59 | a length with its extension bytes, wrapping at 32 bits; refused when the input ends in it |
| `Lz4.CopyBack` | src/loader/NsoLoader.cpp:84-88 | copies byte by byte from the output itself and stops at its end; nothing else changes |
| `Lz4.CopyLiterals` | src/loader/NsoLoader.cpp:60-67 | copies literals and nothing else |
| `Lz4.DecodeMatch` | src/loader/NsoLoader.cpp:70-88 | offset, match length and copy, or the end of the block at offset 0 |
| `Lz4.DecodeSequence` | src/loader/NsoLoader.cpp:49-89 | one pass of the loop, with its breaks |
| `Lz4.DecodeBlock` | src/loader/NsoLoader.cpp:41-91 | the loop terminates and writes what the specification says, never past the destination |
| `Lz4.Decompress` | src/loader/NsoLoader.cpp:32-92 | data without the magic number is copied, other data decoded; bytes past the result are untouched |
| `Lz4.LengthRead` | src/loader/NsoLoader.cpp:51-82 | every length reads back modulo 2^32, whatever follows |
| `Lz4.CopyRepeats` | src/loader/NsoLoader.cpp:84-88 | the overlapping byte copy is periodic repetition, cut to the room |
| `Lz4.MatchDecodes` | src/loader/NsoLoader.cpp:75-88 | an encoded match of any length repeats that many bytes modulo 2^32 |
| `Lz4.SequenceDecodes` | src/loader/NsoLoader.cpp:49-89 | an encoded sequence appends its literals and its repeated match |
| `Lz4.BlockDecodes` | src/loader/NsoLoader.cpp:49-91 | a list of encoded sequences decodes to its expansion from any output position |
| `Lz4.MatchExact` | src/loader/NsoLoader.cpp:75-88 | a match is expanded in full if and only if its length is below 2^32 |
| `Lz4.LongLiterals` | src/loader/NsoLoader.cpp:51-72 | 2^32 literals or more give fewer bytes than they are, whatever the decoder makes of the ones it did not count |
| `Lz4.SequenceExact` | src/loader/NsoLoader.cpp:45-90 | with room for it, a sequence decodes to its expansion and nothing more if and only if both its lengths are below 2^32 |
| `Lz4.LastExact` | src/loader/NsoLoader.cpp:45-72 | the same for the literals that end a block |
| `Lz4.BlockExact` | src/loader/NsoLoader.cpp:32-92 | for any block: the decoder reads every sequence as what it encodes if and only if every length in the block is below 2^32 |
| `Lz4.WrapUnnoticed` | src/loader/NsoLoader.cpp:32-92 | a finding: a block with 2^32 literals at which the decoder loses step, and whose destination still receives exactly the expansion |
| `Lz4.RoundTrip` | src/loader/NsoLoader.cpp:32-92 | decoding the encoding of any valid block writes exactly its expansion, cut to the destination's size |
| `AesCtr.SeekCounter` | src/loader/AesCrypto.cpp:31-41 | the in-place seek is byte-wise addition without carries |
| `AesCtr.Increment` | src/loader/AesCrypto.cpp:54-56 | the in-place increment is the big-endian successor |
| `AesCtr.XorBlock` | src/loader/AesCrypto.cpp:62-66 | one block combined with the keystream, source and target possibly the same |
| `AesCtr.DecryptBlock` | src/loader/AesCrypto.cpp:59-71 | one block and the counter moved on, or the cipher's failure |
| `AesCtr.DecryptBlocks` | src/loader/AesCrypto.cpp:59-71 | the block loop, in place or not |
| `AesCtr.DecryptCtr` | src/loader/AesCrypto.cpp:26-74 | the whole call, in place or not: false exactly when the cipher fails, bytes past the size untouched |
| `AesCtr.IncrementAdds` | src/loader/AesCrypto.cpp:54-56 | the increment adds one modulo 2^128 |
| `AesCtr.SoughtValue` | src/loader/AesCrypto.cpp:34-41 | the exact value of the seek: the sum less the carries it drops |
| `AesCtr.SeekExact` | src/loader/AesCrypto.cpp:34-41 | the seek is addition if and only if no byte overflows |
| `AesCtr.ZeroLowHalf` | src/loader/AesCrypto.cpp:34-41 | a counter whose low eight bytes are zero seeks exactly to any block |
| `AesCtr.BlocksMask` | src/loader/AesCrypto.cpp:59-71 | block by block from a boundary is the keystream of the stream positions |
| `AesCtr.DecryptMasks` | src/loader/AesCrypto.cpp:26-74 | with an exact seek each byte is combined with the keystream byte of its own stream position (section 6.5 of NIST SP 800-38A) |
| `AesCtr.DecryptJoin` | src/loader/AesCrypto.cpp:26-74 | decrypting two parts at their own offsets is decrypting the whole |
| `AesCtr.RandomAccess` | src/loader/AesCrypto.cpp:26-74 | decrypting a suffix at its offset gives the suffix of the whole decryption |
| `AesCtr.ChunksAreWhole` | src/loader/AesCrypto.cpp:26-74 | however a stream is chunked the chunks decrypt to the whole |
| `AesCtr.BlocksTwice` | src/loader/AesCrypto.cpp:59-71 | the block loop run twice from one counter is the identity |
| `AesCtr.DecryptTwice` | src/loader/AesCrypto.cpp:26-74 | decrypting twice is the identity, for any initial counter |
| `IpcMessage.ResponseOffset` | src/services/Ipc.cpp:51-77 | the data words of a response begin right behind its handle slot and its CMIF part at byte 16 |
| `IpcMessage.ResponseReads` | src/services/Ipc.cpp:620-677 | a built response parses back to token, result, handle counts, handle and data, and in a domain the object count |
| `IpcMessage.ObjectsRead` | src/services/Ipc.cpp:647-653 | the object ids behind the data of a domain response read back |
| `IpcMessage.ResponseAsRequest` | src/services/Ipc.cpp:275-291 | a non-domain response fed back as a request is handled as command 0 with empty input; it is recognised as recycled exactly when its data-word count is not a multiple of 1024 |
| `IpcMessage.DomainResponseNotRecycled` | src/services/Ipc.cpp:277-286 | a finding: a domain response fed back is never recognised, because its magic stands behind the domain header |
| `IpcMessage.BuildPayload` | src/services/Ipc.cpp:636-660 | data moved behind the headers, object ids behind the data, headers last: the payload in place |
| `IpcMessage.BuildResponse` | src/services/Ipc.cpp:620-683 | the response in place, with the service's own output as its data |
| `IpcManager.Manager.constructor` | src/services/Ipc.cpp:124 | an empty table |
| `IpcManager.Manager.RegisterService` | src/services/Ipc.cpp:132-136 | a service under a name |
| `IpcManager.Manager.Add` | src/services/Ipc.cpp:153-158 | a session under an id never used before |
| `IpcManager.Manager.Connect` | src/services/Ipc.cpp:138-162 | a session for a name, with or without a colon; without service for an unknown name |
| `IpcManager.Manager.CreateSession` | src/services/Ipc.cpp:172-183 | an anonymous session that owns its service |
| `IpcManager.Manager.CloseSession` | src/services/Ipc.cpp:185-203 | exactly that session goes, the others stay in order, and its id never comes back |
| `IpcManager.Manager.Find` | src/services/Ipc.cpp:251-255 | the position of a session, if there is one |
| `IpcManager.Manager.ConvertToDomain` | src/services/Ipc.cpp:502-507 | the session becomes a domain; its objects stay |
| `IpcManager.Manager.IssueObject` | src/services/Ipc.cpp:569-578 | in a domain with a service: the next object id, never issued before in this session |
| `IpcManager.Manager.CallAll` | src/services/Sm.cpp:45-87 | what a service asks of the manager while it answers, in order: services registered, sessions opened by name with or without a service, and anonymous sessions that own theirs |
| `IpcManager.Manager.HandleControl` | src/services/Ipc.cpp:487-525 | control requests are answered by the manager: conversion, pointer-buffer size, or empty |
| `IpcManager.Manager.Build` | src/services/Ipc.cpp:620-683 | the built bytes read back as the reply meant |
| `IpcManager.Manager.HandleCommand` | src/services/Ipc.cpp:526-592 | the command goes to the routed target and its output becomes the reply, a handle, or a new object; the table afterwards is exactly the one the target's calls and its answer make |
| `IpcManager.Manager.HandleRequest` | src/services/Ipc.cpp:247-690 | from request bytes to response bytes: refusal, close, control or command, with the whole table afterwards |
| `IpcManager.AddedOk` | src/services/Ipc.cpp:138-183 | adding a session keeps the table's invariant |
| `IpcManager.RemovedOk` | src/services/Ipc.cpp:185-203 | removing one keeps it, and the id is dead |
| `IpcManager.IssuedOk` | src/services/Ipc.cpp:569-578 | issuing in a domain keeps it: ids stay exactly 1 up to the next one, and only domains with a service have any |
| `IpcManager.DomainOk` | src/services/Ipc.cpp:502-507 | conversion keeps it |
| `IpcManager.FoundAt` | src/services/Ipc.cpp:251-255 | ids are distinct, so lookup finds each session at its own place |
| `IpcManager.RouteReaches` | src/services/Ipc.cpp:529-541 | a request naming an object issued under a live session reaches the service it was issued for |
| `IpcManager.ExtractPlaces` | src/services/Ipc.cpp:559-592 | handles leave only through a slot, objects only in a domain |
| `IpcRuns.Perform` | src/services/Ipc.cpp:132-690 | each method of the manager takes the table to what the operation says, on the object itself |
| `IpcRuns.CallsOk` | src/services/Sm.cpp:45-87 | any calls a service makes while it answers keep the table's invariant |
| `IpcRuns.DoOk` | src/services/Ipc.cpp:132-690 | every operation keeps the table's invariant and takes no issued object back, whatever services ask of the manager while they answer |
| `IpcRuns.RunOk` | src/services/Ipc.cpp:132-690 | so does every list of operations |
| `IpcRuns.ObjectIssued` | src/services/Ipc.cpp:559-592 | when a command in a domain answers with the handle of a session that has a service, the next object id, never issued before, is issued for that service; otherwise nothing is issued |
| `IpcRuns.IssuedReaches` | src/services/Ipc.cpp:529-541 | after any operations, a session that lives routes every object ever issued under its id to the service it was issued for |
| `IpcRuns.DoKeeps` | src/services/Ipc.cpp:185-690 | an operation that does not close a session leaves it live, with its name and service, possibly made a domain and with more objects |
| `IpcRuns.LivesUntilClosed` | src/services/Ipc.cpp:185-690 | over any list of operations a session lives until it is closed |
| `IpcRuns.NeverReused` | src/services/Ipc.cpp:138-203 | an id below the session counter that is not live never lives again |
| `IpcRuns.ExactIds` | src/services/Ipc.cpp:569-578 | after any run from the start the objects issued under a live session are exactly 1 up to its next one |
| `IpcRuns.RequestReaches` | src/services/Ipc.cpp:247-541 | after any operations that do not close the session, a command naming an issued object has the service it was issued for as its target |
| `IpcRuns.ServiceGot` | src/services/Sm.cpp:45-87 | a guest that asks the name service for a service gets the handle of a new session for the service of that name, registered just then or before, or a session without service if there is none; in a domain it gets the next object id instead |
| `TraceEngine.Engine.AllocateSlot` | src/debug/TraceEngine.cpp:111-134 | the next position; read position and dropped count are the number of entries past the capacity |
| `TraceEngine.Engine.Record` | src/debug/TraceEngine.cpp:137-182 | an accepted event is appended to the log, any other is not |
| `TraceEngine.Engine.Store` | src/debug/TraceEngine.cpp:159-173 | the event's cell and counters |
| `TraceEngine.Engine.Positions` | src/debug/TraceEngine.cpp:111-134 | read <= write, and their distance is the number of entries kept, at most the capacity |
| `TraceEngine.Engine.Collect` | src/debug/TraceEngine.cpp:288-294 | the backward scan collects exactly the newest matching entries the ring holds |
| `TraceEngine.Engine.Query` | src/debug/TraceEngine.cpp:279-303 | sorted; with increasing timestamps exactly the newest matching entries of the log's last capacity entries, oldest first |
| `TraceEngine.Engine.GetStats` | src/debug/TraceEngine.cpp:306-315 | totals, per-channel counts, and dropped = max(0, total - capacity) |
| `TraceEngine.Engine.Clear` | src/debug/TraceEngine.cpp:327-335 | a new log; switches and filters stay |
| `TraceEngine.Engine.EnableChannel` | src/debug/TraceEngine.cpp:75-82 | one channel's switch |
| `TraceEngine.Engine.SetFilter` | src/debug/TraceEngine.cpp:100-108 | one channel's filter, if there is such a channel |
| `TraceEngine.Engine.constructor` | src/debug/TraceEngine.cpp:42-62 | an empty log, the first two channels enabled |
| `TraceEngine.SortByTime` | src/debug/TraceEngine.cpp:296-300 | sorted by time, a rearrangement |
| `TraceEngine.NewestInLog` | src/debug/TraceEngine.cpp:288-294 | answers are matching entries of the log |
| `TraceEngine.NewestOrdered` | src/debug/TraceEngine.cpp:288-294 | answers keep the log's order |
| `TraceEngine.NewestComplete` | src/debug/TraceEngine.cpp:288-294 | a match left out is older than every entry returned, and then the answer is full |
| `TraceEngine.SortedUnique` | src/debug/TraceEngine.cpp:296-300 | with distinct increasing timestamps sorting restores log order |
| `Debugger.MakeBrk` | src/cpu/Debugger.cpp:20-25 | a debug BRK word is never zero |
| `Debugger.BrkTag` | src/cpu/Debugger.cpp:20-25 | the immediate is the tag, and two addresses share a BRK exactly when they share their page offset |
| `Debugger.EmuDebugger.constructor` | src/cpu/Debugger.cpp:17 | no breakpoints, running |
| `Debugger.EmuDebugger.SetMemory` | src/cpu/Debugger.cpp:47-62 | code memory becomes available as it is |
| `Debugger.EmuDebugger.Patch` | src/cpu/Debugger.cpp:69-77 | saves the word and writes the BRK where memory reaches |
| `Debugger.EmuDebugger.Unpatch` | src/cpu/Debugger.cpp:88-96 | writes the saved word back unless it is zero |
| `Debugger.EmuDebugger.ApplyBreakpoints` | src/cpu/Debugger.cpp:65-82 | every enabled breakpoint within reach is patched, nothing else about the breakpoints changes, and the overlay holds |
| `Debugger.EmuDebugger.RestoreBreakpoints` | src/cpu/Debugger.cpp:84-99 | code memory is the original code exactly when no patched word was zero |
| `Debugger.EmuDebugger.SetBreakpoint` | src/cpu/Debugger.cpp:102-133 | new breakpoints are patched at once, old ones enabled, address 0 ignored; the overlay holds |
| `Debugger.EmuDebugger.RemoveBreakpoint` | src/cpu/Debugger.cpp:135-152 | forgets the breakpoint; the overlay holds if and only if its word was not stuck |
| `Debugger.EmuDebugger.CountHit` | src/cpu/Debugger.cpp:233-252 | counts the hit and takes the patch away |
| `Debugger.EmuDebugger.Forget` | src/cpu/Debugger.cpp:254-256 | a temporary breakpoint goes after its hit |
| `Debugger.EmuDebugger.OnBreakpoint` | src/cpu/Debugger.cpp:225-282 | handled exactly at an enabled breakpoint or the end of a step; what it changes; the overlay holds unless a stuck temporary one was dropped |
| `Debugger.EmuDebugger.Pause` | src/cpu/Debugger.cpp:199-202 | paused |
| `Debugger.EmuDebugger.Continue` | src/cpu/Debugger.cpp:204-210 | every enabled breakpoint within reach is patched before the guest goes on |
| `Debugger.EmuDebugger.StepOver` | src/cpu/Debugger.cpp:212-222 | the same, and the step ends four bytes after the last pc |
| `Debugger.Perform` | src/cpu/Debugger.cpp:20-222 | over code without zero words any operation keeps the overlay |
| `Debugger.Debug` | src/cpu/Debugger.cpp:20-222 | over code without zero words: after any operations, restoring the breakpoints brings back the code as it was |
| `Debugger.OverlayUnderlying` | src/cpu/Debugger.cpp:65-152 | code memory with patched words replaced by saved ones is the original code |
| `Debugger.PatchKeeps` | src/cpu/Debugger.cpp:69-77 | patching keeps the overlay |
| `Debugger.UnpatchKeeps` | src/cpu/Debugger.cpp:88-96 | writing back keeps the overlay |
| `Debugger.StuckLost` | src/cpu/Debugger.cpp:144-150 | a finding: forgetting a breakpoint over a zero word leaves its BRK in the code |
| `Debugger.NonzeroNeverStuck` | src/cpu/Debugger.cpp:144-147 | over code without zero words nothing is ever stuck |
| `Debugger.OriginalWhenUnpatched` | src/cpu/Debugger.cpp:84-99 | once every patched word left is one that cannot be written back: memory is the original code exactly when nothing is patched |
| `SvcPatcher.Host.constructor` | src/cpu/NativeExec.cpp:24 | no fixed address, empty cache |
| `SvcPatcher.Host.EnsureFixedTls` | src/cpu/NativeExec.cpp:27-50 | the first mappable of 15 candidates, chosen once |
| `SvcPatcher.Host.BrkCacheAdd` | src/cpu/ExceptionHandler.cpp:17-20 | the call's tag under its address |
| `SvcPatcher.Host.PatchSVCs` | src/cpu/NativeExec.cpp:60-100 | the buffer, the cache and the list of calls, in place; refused sizes change nothing |
| `SvcPatcher.Host.PatchCall` | src/cpu/NativeExec.cpp:73-91 | one word and no other |
| `SvcPatcher.Host.Trap` | src/cpu/ExceptionHandler.cpp:96-146 | the trap half: dispatch, debugger or skip |
| `SvcPatcher.BrkCarriesNumber` | src/cpu/NativeExec.cpp:73-79 | a patched call is a BRK carrying the call's tag |
| `SvcPatcher.TlsLoadExact` | src/cpu/NativeExec.cpp:55-58 | a thread-pointer read becomes a MOVZ of exactly the fixed address into the same register |
| `SvcPatcher.CacheLookup` | src/cpu/NativeExec.cpp:81 | after patching the cache holds exactly the calls of the buffer, and everything else it held |
| `SvcPatcher.CacheTags` | src/cpu/NativeExec.cpp:81 | only call tags ever enter the cache |
| `SvcPatcher.TrapInverts` | src/cpu/ExceptionHandler.cpp:99-146 | patch and trap are inverse: call n dispatches n, any other word is skipped |
| `SvcPatcher.NeverToDebugger` | src/cpu/ExceptionHandler.cpp:112-133 | no patched call is taken for a debugger tag; a finding: nothing else is cached, so no trap reaches the debugger at all |
| `SvcPatcher.PatchTwice` | src/cpu/NativeExec.cpp:60-100 | patching twice changes neither code nor cache, but the second call returns no calls |
| `SvcPatcher.NoCallNoRead` | src/cpu/NativeExec.cpp:73-91 | no word is both a call and a thread-pointer read, so the order of the two checks does not matter |
| `NvMap.HandlesDistinct` | src/services/Nv.cpp:214-215 | ids up to 0x20000 have different handles |
| `NvMap.FirstCollision` | src/services/Nv.cpp:214-215 | the limit is exact: the next id shares the first one's handle |
| `NvMap.AlignUpLeast` | src/common/Types.h:64-67 | for powers of two, the least multiple not below the value |
| `NvMap.CreateKeeps` | src/services/Nv.cpp:213-225 | creating keeps the index exact |
| `NvMap.PlaceKeeps` | src/services/Nv.cpp:292-317 | placing at the end of the issued part, or unplacing, keeps regions inside the carveout and disjoint |
| `NvMap.NvMapTable.constructor` | src/services/Nv.cpp:53-64 | no objects, nothing issued |
| `NvMap.NvMapTable.Create` | src/services/Nv.cpp:205-235 | a new object under its own handle |
| `NvMap.NvMapTable.HandleCreate` | src/services/Nv.cpp:205-235 | creation through the ioctl adds one unmapped object of the given size, with a page as its alignment, under a handle of its own |
| `NvMap.NvMapTable.NvMapAlloc` | src/services/Nv.cpp:660-683 | the convenience call adds one object of the given size and alignment and does not allocate it |
| `NvMap.NvMapTable.Lookup` | src/services/Nv.cpp:646-653 | the entry with that handle, exactly when there is one |
| `NvMap.NvMapTable.HandleAlloc` | src/services/Nv.cpp:259-321 | where and when an object is placed; reply zero in every case; issued space is never issued again |
| `NvMap.NvMapTable.HandleFree` | src/services/Nv.cpp:323-336 | the object gives up its address, the carveout keeps what it issued |
| `NvMap.Perform` | src/services/Nv.cpp:205-336 | any operation keeps the invariant, and every object keeps its handle, id and size |
| `NvMap.Serve` | src/services/Nv.cpp:205-336 | after any operations on a new table, up to the limit of ids: objects with an address lie in the issued part of the carveout and apart, handles differ, and each object is found under its own |
| `DebugCommand.Seek` | src/debug/DebugServer.cpp:19-24 | behind the key, then behind a character |
| `DebugCommand.ExtractJsonString` | src/debug/DebugServer.cpp:18-40 | the string value of a key, or empty |
| `DebugCommand.ExtractJsonArray` | src/debug/DebugServer.cpp:42-68 | the strings of a key's array, or none |
| `DebugCommand.NextQuote` | src/debug/DebugServer.cpp:59-63 | the next quote from a cursor |
| `DebugCommand.SplitStrings` | src/debug/DebugServer.cpp:55-66 | the quoted strings of a list, the last one possibly unclosed |
| `DebugCommand.Parse` | src/debug/DebugServer.cpp:76-81 | command and arguments of a line |
| `DebugCommand.ToJson` | src/debug/DebugServer.cpp:83-91 | the printed command |
| `DebugCommand.CommandRead` | src/debug/DebugServer.cpp:18-40 | a command without quotes reads back, even when it is the key "args" |
| `DebugCommand.SplitList` | src/debug/DebugServer.cpp:55-66 | a printed list of plain strings splits into those strings and has no closing bracket inside |
| `DebugCommand.ArgumentsRead` | src/debug/DebugServer.cpp:42-68 | printable arguments read back, for any command |
| `DebugCommand.ParsedPrintable` | src/debug/DebugServer.cpp:76-81 | whatever is parsed is printable |
| `DebugCommand.RoundTrip` | src/debug/DebugServer.cpp:76-91 | parse after print is the identity if and only if the command has no quote and no argument has a quote or closing bracket |
| `GPFifo.HeaderFields` | src/gpu/engine/GPFifo.cpp:4-13 | the readers take a made header apart |
| `GPFifo.HeaderRemade` | src/gpu/engine/GPFifo.cpp:4-13 | every word is the header of its own fields |
| `GPFifo.Parser.Command` | src/gpu/engine/GPFifo.cpp:33-82 | one command: incomplete, or its writes and its length |
| `GPFifo.Parser.Process` | src/gpu/engine/GPFifo.cpp:29-86 | the loop fires the writes of all complete commands and stops before an incomplete one |
| `GPFifo.Parser.FireIncreasing` | src/gpu/engine/GPFifo.cpp:46-53 | consecutive methods |
| `GPFifo.Parser.FireRepeated` | src/gpu/engine/GPFifo.cpp:55-62 | one method repeatedly |
| `GPFifo.PacketExact` | src/gpu/engine/GPFifo.cpp:33-82 | a packet of any kind parses to its writes and its length if and only if it is not a host method or carries no data words |
| `GPFifo.RoundTrip` | src/gpu/engine/GPFifo.cpp:29-86 | any list of packets, host methods without data words among them, fires exactly its writes in order and consumes every word |
| `GPFifo.HostDataParsed` | src/gpu/engine/GPFifo.cpp:40-43 | of a host packet of any kind only the header is consumed; its data words are then read as headers |
| `GPFifo.Streaming` | src/gpu/engine/GPFifo.cpp:29-86 | stopping after p words and going on with the rest is the same as one run |
| `StateTracker.Engine3D.constructor` | src/gpu/engine/Engine3D.cpp:7-17 | the reset values of the draw registers |
| `StateTracker.Engine3D.HandleMethod` | src/gpu/engine/Engine3D.cpp:25-146 | array ranges first, then single registers; a draw exactly at the two count registers |
| `StateTracker.StateTracker.OnMethod` | src/gpu/StateTracker.cpp:56-120 | one write: registers, dirty flag, and a queued draw with its counts reset |
| `StateTracker.StateTracker.PushBuffer` | src/gpu/StateTracker.cpp:13-16 | applies exactly the writes the parser fires; counts are zero between methods; the queue grows by the number of triggers |
| `StateTracker.StateTracker.ConsumeDraws` | src/gpu/StateTracker.h:62 | hands over the whole queue |
| `StateTracker.StateTracker.ClearDirty` | src/gpu/StateTracker.h:65-68 | empties the queue and the flag |
| `StateTracker.StateTracker.constructor` | src/gpu/StateTracker.cpp:5-10 | reset registers, empty queue |
| `StateTracker.StaysIdle` | src/gpu/StateTracker.cpp:84-87 | both live counts are zero after any writes |
| `StateTracker.QueueLength` | src/gpu/StateTracker.cpp:68-82 | one draw for each trigger on a 3D subchannel |
| `StateTracker.RegistersLatest` | src/gpu/engine/Engine3D.cpp:129-387 | registers hold what was last written to them, the primitive type among them |
| `StateTracker.DrawQueued` | src/gpu/StateTracker.cpp:68-87 | each trigger's draw is at its place, with its own value in exactly the matching count, zero in the other, the latest registers and the latest primitive type |
| `StateTracker.OnWritesAppend` | src/gpu/StateTracker.cpp:56-120 | two stretches of writes are one |
| `StateTracker.SplitPush` | src/gpu/StateTracker.cpp:13-16 | a pushbuffer cut anywhere queues the same draws |
| `MaxwellDecoder.UsesTextures` | src/gpu/shader/MaxwellDecoder.cpp:652-658 | textures are used exactly when TEX, TEXS or TLDS occurs |

## Left out

- SpirvEmitter.Emitter.AllocId: ids are unbounded, so 32-bit wrap-around of the id counter is not modelled.
- LabelPlacement.LabelsPlacedExact: says that a label stands somewhere in the module, not that it stands at the block meant, and nothing of the other rules for structured control flow.
- FloatInstructions.FloatInstExact: float operations are any functions, so it calls wrong also what would be right for one kind of arithmetic, as a product of two negated sources; modifiers of integer instructions are given no meaning.
- SpirvEmitter.Emitter.EmitInst: word counts and opcodes are combined by addition, which equals the code's bit-or for the instructions emitted (`EmitterLayout.ModuleFits`).
- SemanticPreservation.EmittedCodeSimulates: covers straight-line programs without guards and operand modifiers, over the scalar float, integer and conversion opcodes; shifts, bit fields, comparisons, minimum and maximum of integers, predicates, memory and textures have their emission modelled but no meaning, because their opcode numbers are not those of the SPIR-V specification.
- SemanticPreservation.DefinedBeforeUse: stated for straight-line programs, for the same reason as above and because labels are excluded.
- EmitterIds.ResultIdsUnique: assumes increasing program counters, which `BinaryToSpirv.DecodedIncreasing` provides for decoded programs.
- RecipeMeaning.ScalarRecipe: float operations are uninterpreted functions on 32-bit words, so rounding and NaN rules are not modelled.
- MaxwellDecoder.Decoder.Decode: from 2^32 - 8 bytes on the code's 32-bit offset can wrap to the start and the loop need not end, so such sizes are excluded; register counts, varyings and the program hash are left out.
- MaxwellDecoder.Decoder.DecodeOne: an operand payload the decoder leaves uninitialised is zero in the model; the second word's fields (memory space, sampler) are left out.
- Lz4.RoundTrip: lengths below 2^32; `Lz4.BlockExact` and `Lz4.WrapUnnoticed` say what happens above.
- Lz4.DecodeBlock: a read past the end of the input and a copy from before the output, which the code performs, are reported as an outcome of their own.
- AesCtr.RandomAccess: requires the initial counter's low eight bytes to be zero, as the carry is dropped in the seek; `AesCtr.DecryptMasks` has the exact condition.
- TraceEngine.Engine.Record: one thread; events with extra data, the file output and the race on the read position are left out.
- TraceEngine.Engine.Query: the order of equal timestamps is not claimed, as the sort does not promise it.
- KernelEvent.KEvent.SignalStep: the call of NotifyWaiters at the end of Signal is left out, with the waiter list.
- KernelEvent.NoLostWakeup: waiting on several objects and the waiter list behind NotifyWaiters are left out.
- Debugger.EmuDebugger.SetBreakpoint: code words are addressed by 4-byte-aligned addresses; page protection changes always succeed.
- Debugger.EmuDebugger.OnBreakpoint: the register snapshot other than the pc and the callback are left out; ClearAllBreakpoints is left out, as it does not restore code.
- SvcPatcher.Host.PatchSVCs: the buffer is words at consecutive addresses; a null buffer and the instruction-cache flush are left out.
- SvcPatcher.Host.Trap: the copying of registers to and from the signal frame is left out.
- NvMap.NvMapTable.Create: beyond 0x20000 objects handles repeat and the invariant is not claimed.
- NvMap.NvMapTable.HandleAlloc: GPU addresses equal carveout addresses and are not a field of their own; the other ioctls (id lookup, parameters, cache) are left out.
- IpcManager.Manager.Add: 32-bit wrap-around of the session counter is not modelled.
- IpcManager.Manager.IssueObject: 32-bit wrap-around of the object counter is not modelled; the root object's id and the first issued id are both 1, and no claim separates them.
- IpcManager.Manager.CloseSession: deleting the owned service and dangling references to it are left out.
- IpcManager.Manager.HandleRequest: buffers named by a receive list are left out; bytes past the end of a request read as zero; a service may register services and open sessions during a command but closes none, as no service does; the input bytes of a domain request are taken where the code takes them, without adding the domain header.
- IpcManager.Manager.HandleCommand: the response buffer has room for the service's output and 80 bytes more.
- GPFifo.Parser.Process: the single-entry call and changing a subchannel's engine are left out.
- StateTracker.Engine3D.HandleMethod: the array ranges are routed but of the registers only those a draw reads are modelled; render targets, viewports and blending are left out.
- StateTracker.StateTracker.OnMethod: the pipeline key of a queued draw is left out; it reads the registers that are left out.
- StateTracker.DrawQueued: the pipeline key is not stated, for the same reason.
- DebugCommand.Parse: the other debug-server commands and responses are left out.
- Service stubs, Metal rendering, windows, audio, input, file systems, memory mapping, the scheduler, loaders other than the LZ4 decoder, and AES in XTS mode: foreign interfaces, constant replies, or members that would only be easy.

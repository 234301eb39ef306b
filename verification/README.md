# Verified model of pglite-go

This project models the parts of pglite-go that carry the hardest obligations and proves what they
are for. There are three groups of modules.

**The rewriting compiler** (`internal/wasmpass`). A WebAssembly module is decoded, its
dynamic-linking imports are made internal, and a guard is spliced in after every call that can reach
the longjmp throw, so that an unwind by the host becomes a chain of ordinary returns.

- `Leb128`, `Opcodes`, `ModuleTypes`, `ModuleCodec`, `ModuleRoundTrip`, `Reading`: the binary format,
  its readers and writers, and the round trip between them.
- `Instructions`, `Formats`, `GuardedCode`: writers of instructions and modules of their own, apart from
  the tables and readers, and what the readers and the pass make of what is written.
- `CallGraph`, `Splice`, `Guard`: the may-longjmp fixpoint, the walk over instruction boundaries, the
  back-to-front insertion, the guard and the added local.
- `Wasm`: a structured subset of WebAssembly (constants, loads and stores, locals and globals, block,
  loop, if, branches, calls, indirect calls, return; other instructions and host functions are
  arbitrary environment functions) with a fuel-indexed evaluator. A second mode of the evaluator
  watches the flag word and the stack pointer at guarded calls.
- `Unwind`, `Validity`: the two simulation theorems and the preservation of typing.
- `Structure`, `Pipeline`: the pass on bytes is the pass on structured code, and so the theorems hold
  of what the byte-level pass leaves behind.
- `WasmModule`, `PrelinkFacts`: the module object with its methods, and what prelinking preserves:
  the meaning of global indices and the state of a fresh instance.
- `Transform`, `Instance`: the whole transformation, from input bytes to output bytes, and from a fresh
  instance of the one to a fresh instance of the other.

**The overlay filesystem** (`vfs`). A writable in-memory tree over a read-only layer, with copy-up,
whiteouts and symlinks across both.

- `MemTree`, `MemFS`: the tree. Node pointers are numbers into a table, so a node keeps its identity
  while it is moved, replaced or unlinked.
- `Resolve`: lookup through both layers and symlink resolution. Paths are lists of components, and a
  resolved path is kept in its cleaned form.
- `Overlay`, `OverlayTree`, `OverlayFS`: the operations as functions of the state, the invariant of
  every reachable state, and the object whose methods do them in place.
- `FlatFS`, `OverlayFlat`, `OverlaySpare`, `OverlayMoves`, `OverlayFds`, `OverlayRefines`: the single
  flat filesystem the overlay should look like, with descriptors that follow their files, and the
  refinement over whole runs.
- `OverlayLimits`: where the refinement ends. Making a directory below a file, removing a directory,
  putting a file over one, renaming a file, writing behind the end, reading and truncating each have
  the exact condition and a run outside it. What is left untreated is named below.
- `OverlayLinks`: names and links: which operations follow a link, which act on the link itself, and
  what a removal below a link does.
- `GrowBuffer`, `Persist`: the doubling buffer behind a file; saving a subtree and loading it back.

**The host boundary.** `Argv` lays out the argument vector; `WirePump` and `Relay` move protocol
bytes; `Frames`, `WireValues` and `WireDecode` read them, and `WireForms` says what a server sends;
`ImportPatch` and `Dylink` rewrite the import
section and read the dynamic-linking section.

Conventions: `None` (or `false`) stands for an error return or a panic of the original. Source
integers are unbounded numbers with the original's 32- or 64-bit wrap-around written out where a value
can reach it. Each imperative member is proved equal to a specification function, and the lemmas are
about that function.

Where the code and its comments disagree, the model follows the code: the import rewriter names the
new module "env.extras", although its comment says "env.globals" (`emscripten/patch.go:7-9` and `:82`).

Standards: section numbers in comments are those of the WebAssembly Core Specification 2.0; the wire
messages are those of the "Message Formats" section of the PostgreSQL protocol 3.0 chapter.

## Model

| member | source | states |
|---|---|---|
| Leb128.ReadPutU | internal/wasmpass/wasm.go:71-81 | reading an unsigned encoding gives the number back and takes exactly its bytes, whatever follows |
| Leb128.ReadPutS | internal/wasmpass/wasm.go:83-92 | the same for every signed number |
| Leb128.ReadULocal | internal/wasmpass/wasm.go:15-26 | an unsigned read depends only on the bytes it takes |
| Leb128.ReadSLocal | internal/wasmpass/wasm.go:41-57 | a signed read depends only on the bytes it takes |
| Leb128.PutUShortest | internal/wasmpass/wasm.go:71-81 | what the writer emits is no longer than any encoding of the same number |
| Leb128.Cur.U32 | internal/wasmpass/wasm.go:15-26 | the shifting loop reads the encoded number modulo 2^32 and advances past it; it fails exactly when the bytes run out |
| Leb128.Cur.S64 | internal/wasmpass/wasm.go:41-57 | the loop with its hand-made sign extension reads the two's complement number modulo 2^64 at every length |
| Leb128.PutU32 | internal/wasmpass/wasm.go:71-81 | the writing loop appends the canonical encoding |
| Leb128.PutS32 | internal/wasmpass/wasm.go:83-92 | the signed writing loop appends the canonical encoding |
| Formats.NumbersAreSums | internal/wasmpass/wasm.go:15-57 | a number is the sum of its 7-bit groups, a signed one less the power behind them if bit 6 of the last is set |
| Opcodes.WalkInstr | internal/wasmpass/opcodes.go:14-98 | the stepping switch finds the same boundary and the same call classification as the table of operand shapes, and fails on exactly the opcodes outside it |
| Opcodes.WalkLocal | internal/wasmpass/opcodes.go:14-98 | every step makes progress and reads only the bytes it skips |
| Opcodes.FuncCallsLoop | internal/wasmpass/opcodes.go:101-115 | the loop lists the direct call targets in order and tells whether there is an indirect call |
| Instructions.WalkWritten | internal/wasmpass/opcodes.go:14-98 | every instruction written with the operands its family has is stepped over exactly, whatever follows, and told a call, an indirect call or neither |
| Instructions.ForeignStops | internal/wasmpass/opcodes.go:14-98 | every opcode and every sub-opcode outside these families stops the walk |
| Instructions.TokensWritten | internal/wasmpass/opcodes.go:14-98 | walking a written list of instructions finds exactly those |
| Instructions.CallsWritten | internal/wasmpass/opcodes.go:101-115 | the calls found in a written list are its direct targets in order, and whether it has an indirect call |
| CallGraph.MayLongjmpIsLeast | internal/wasmpass/passes.go:193-239 | the functions that reach the throw or an indirect call along calls form the least set closed under callers |
| CallGraph.OutsideNeverReaches | internal/wasmpass/passes.go:193-239 | no path of direct calls of any length leads from outside the set to the throw or to an indirect call |
| CallGraph.MayLongjmpExactly | internal/wasmpass/passes.go:207-238 | a function is in the set if and only if there is a sequence of direct calls from it to a caller of the throw or to a function with an indirect call |
| CallGraph.SeedIsLast | internal/wasmpass/passes.go:195-206 | the throw is the last function import of the configured name, by its index among the function imports; there is none if and only if no function import has that name |
| CallGraph.Closure | internal/wasmpass/passes.go:224-238 | the worklist ends with exactly that set, whatever the order of the work |
| CallGraph.MayLongjmpSet | internal/wasmpass/passes.go:195-239 | the whole analysis, over the bodies' bytes, returns that set and the seed, and fails exactly for a missing seed or an unknown instruction |
| Splice.FindSites | internal/wasmpass/passes.go:263-270 | the first walk finds the offsets just behind the selected calls |
| Splice.SpliceGuards | internal/wasmpass/passes.go:282-291 | inserting from the last offset to the first puts the guard at every offset of the original, and counts them |
| Splice.InsertAtSites | internal/wasmpass/passes.go:282-291 | inserting at those offsets is inserting between instructions |
| Splice.InsertedTokens | internal/wasmpass/passes.go:263-300 | walking the result gives the original instructions in order with the guard exactly behind each selected call |
| Splice.EraseInstrumented | internal/wasmpass/passes.go:263-300 | erasing guards and prologue from the result gives the original bytes |
| Splice.InsertKeepsCalls | internal/wasmpass/passes.go:263-300 | the calls of a body are the same before and after |
| Guard.BuildGuard | internal/wasmpass/passes.go:304-338 | the guard's bytes are its seven kinds of instructions in order; it fails exactly for a result type without a zero |
| Guard.AddLocal | internal/wasmpass/passes.go:340-361 | the returned index is the first one behind parameters and locals |
| Guard.AddedLocalExpands | internal/wasmpass/passes.go:353-359 | the run-length locals expand to the old ones and one more, if and only if the extended run is not already at 2^32-1 |
| Guard.AddedLocalWraps | internal/wasmpass/passes.go:353-359 | a run of 2^32-1 locals of the added type becomes one of none |
| Guard.BodyWritesGlobal | internal/wasmpass/passes.go:363-374 | the walk finds a write to the stack pointer exactly if some instruction of the body is one |
| Guard.InstrumentCode | internal/wasmpass/passes.go:259-300 | one turn of the loop: body, locals and number of sites; it fails exactly where the original panics |
| Guard.InstrumentKeepsCalls | internal/wasmpass/passes.go:259-300 | guards and prologue add no call |
| GuardedCode.GuardsWritten | internal/wasmpass/passes.go:263-291 | of written instructions: the guard comes behind every call through a table and every call of a marked function, and behind nothing else |
| GuardedCode.WritesWritten | internal/wasmpass/passes.go:363-374 | the stack pointer is written if and only if an instruction is a global.set of it |
| GuardedCode.CodeWritten | internal/wasmpass/passes.go:259-300 | the whole of a function, instruction by instruction: unchanged without a guarded call; otherwise the prologue if the stack pointer is written anywhere, and the guard, spelled out, behind each guarded call |
| Wasm.WatchInvoke | internal/wasmpass/passes.go:241-244 | watching the flag word changes nothing on an undisturbed execution |
| Unwind.RunGuard | internal/wasmpass/passes.go:304-323 | with the flag zero the guard does nothing on any operand stack; otherwise the frame returns typed zeros with the saved stack pointer put back |
| Unwind.NoThrowSimulation | internal/wasmpass/passes.go:244-302 | whenever the flag is zero at every return of a guarded call, the rewritten program computes the same results, memory, globals, table, host state and traps, at any call depth |
| Unwind.CooperativeUnwind | internal/wasmpass/passes.go:259-322 | once the flag is set at the return of a guarded call, at any depth, every frame returns at its guard: the outermost call yields typed zeros and the store of that moment but for the stack pointer; a function that saves the stack pointer puts its own back whatever its callees did to it, and every function does if calls that return normally keep it |
| Validity.GuardTypes | internal/wasmpass/passes.go:304-323 | the guard types from any operand stack to the same one, at any label depth |
| Validity.ValidityKept | internal/wasmpass/passes.go:244-361 | a valid function stays valid at its own function type |
| Validity.ProgramStaysValid | internal/wasmpass/passes.go:244-361 | a program all of whose functions are valid is still one after the rewrite |
| Structure.ParseGuard | internal/wasmpass/passes.go:304-323 | the guard's bytes decode to the structured guard in front of whatever follows |
| Instructions.BodyWritten | internal/wasmpass/opcodes.go:14-98 | written code, blocks, loops and ifs nested at will, decodes to the structured code it is written from |
| Structure.ParseWeave | internal/wasmpass/passes.go:263-300 | decoding commutes with inserting, through every nesting of blocks |
| Structure.BodyFacts | internal/wasmpass/passes.go:263-279 | the structured body has sites and stack-pointer writes exactly when the walks over bytes find them |
| Structure.InstrumentedFunc | internal/wasmpass/passes.go:259-300 | the function rewritten as bytes decodes to the function rewritten as structured code, added local included |
| Pipeline.ProgramRewritten | internal/wasmpass/passes.go:259-300 | the rewritten module decodes to the rewritten program |
| Pipeline.MarksAreClosed | internal/wasmpass/passes.go:195-239 | every function with a guarded call is itself guarded at its callers, which is what the two simulations need |
| Pipeline.MarksExactly | internal/wasmpass/passes.go:266 | a call is guarded if and only if its target is the throw or a function from which direct calls lead to it or to an indirect call |
| Pipeline.GraphMeans | internal/wasmpass/passes.go:195-223 | the call graph is that of the module: its functions behind the imported ones, each with the calls of its own body |
| Pipeline.MayLongjmpUnchanged | internal/wasmpass/passes.go:195-302 | the analysis gives the same graph, hence the same set, on the result |
| Pipeline.WrittenProgram | internal/wasmpass/passes.go:104-105 | the bytes written for the module `Instrument` leaves decode to it again, and as a program it is the rewritten original |
| Pipeline.InstrumentedModule | internal/wasmpass/passes.go:244-302 | the module that `Instrument` leaves behind satisfies both simulation statements |
| Pipeline.ModuleStaysValid | internal/wasmpass/passes.go:244-302 | if every function of a module is valid, every function of the instrumented module is |
| Transform.ReadyProgram | internal/wasmpass/passes.go:102-103 | stripping and prelinking leave the same program: types, function space and code |
| Transform.ReadyIsGood | internal/wasmpass/passes.go:102-103 | stripping and prelinking leave a module that can be written and read back, if the new global section fits a 32-bit size |
| Transform.Transformed | internal/wasmpass/passes.go:97-106 | the whole of `Transform`: the bytes of the transformed module and the three reported counts, the first being the number of exports that are no roots; exactly the roots are exported, in order; it fails exactly for undecodable bytes, a missing stack pointer or seed import, an unknown opcode or a result type without a zero |
| Transform.TransformMeans | internal/wasmpass/passes.go:97-106 | from input bytes to output bytes: the output decodes to the transformed module, exports exactly the roots, in order, and its program is the rewritten original, for which both simulation statements hold |
| Transform.SpNames | internal/wasmpass/passes.go:126-257 | the stack pointer is the configured global, or else the first global import named "__stack_pointer" |
| Instance.SameInstance | internal/wasmpass/passes.go:97-181 | a fresh instance of what comes out has the same memory, table and globals as a fresh instance of what went in, for modules whose kept global imports come first and whose segment bases the host makes 0 |
| Instance.FreshRunsAgree | internal/wasmpass/passes.go:97-106 | from input bytes to output bytes, each instantiated afresh: calls of the output, from its own store, give the results and stores of the input's, or unwind |
| Instance.TransformedValid | internal/wasmpass/passes.go:97-106 | if every function that goes in is valid, every function that comes out is |
| ModuleCodec.ImportInverse | internal/wasmpass/wasm.go:259-306 | an import reads back as it was written, whatever follows |
| ModuleCodec.LimitsRoundTrip | internal/wasmpass/wasm.go:283-306 | limits read back as written, for each combination of maximum and shared |
| ModuleCodec.ExportInverse | internal/wasmpass/wasm.go:308-318 | an export reads back as written |
| ModuleCodec.ElemInverse | internal/wasmpass/wasm.go:341-358 | an element segment with its raw offset expression reads back as written |
| ModuleCodec.DataInverse | internal/wasmpass/wasm.go:360-375 | a data segment reads back as written |
| ModuleCodec.CodeInverse | internal/wasmpass/wasm.go:377-394 | a function body with its run-length locals reads back as written |
| ModuleRoundTrip.DecodedIsGood | internal/wasmpass/wasm.go:188-235 | a module decoded from bytes without repeated sections meets what the round trip asks for |
| ModuleRoundTrip.RoundTrip | internal/wasmpass/wasm.go:426-571 | decoding an encoded module gives the module back if and only if its type and function sections are there |
| ModuleRoundTrip.EncodeIsStable | internal/wasmpass/wasm.go:426-571 | encoding is a fixpoint from the first decode on |
| Formats.TypesDecoded | internal/wasmpass/wasm.go:237-250 | decoding gives exactly the function types the type section lists, parameters and results each in their place, whatever sections stand around it |
| Formats.FuncsDecoded | internal/wasmpass/wasm.go:251-257 | and exactly the type indices the function section lists |
| Formats.ModuleWritten | internal/wasmpass/wasm.go:426-571 | one module, imports of every kind and nearly every section among its parts, written byte by byte |
| Formats.ModuleRead | internal/wasmpass/wasm.go:188-394 | those bytes are read back as that module, field by field |
| Formats.SectionsInOrder | internal/wasmpass/wasm.go:426-462 | a module is written with its sections in the order the binary format asks for, the data count before the code |
| Formats.OptionalSections | internal/wasmpass/wasm.go:437-458 | the table, memory, start and data count sections are written if and only if the module has them |
| Formats.OtherSections | internal/wasmpass/wasm.go:195-233 | a custom section is dropped wherever it stands, and an unknown one makes decoding fail |
| ModuleTypes.FuncImportsPicked | internal/wasmpass/wasm.go:396-403 | the function index space starts with exactly the function imports, in order |
| ModuleTypes.GlobalImportsPicked | internal/wasmpass/wasm.go:405-418 | and the global index space with exactly the global imports |
| Reading.ReadImport | internal/wasmpass/wasm.go:259-281 | the cursor steps over one import and returns it, failing exactly where the reader function does |
| Reading.ReadConstExpr | internal/wasmpass/wasm.go:320-339 | the loop takes a constant expression up to its end |
| Reading.ReadCode | internal/wasmpass/wasm.go:377-394 | the locals loop and the body slice |
| WasmModule.Module.DecodeInto | internal/wasmpass/wasm.go:188-235 | the section loop fills the module with what the bytes mean, or fails with the reader function |
| WasmModule.Module.Encode | internal/wasmpass/wasm.go:426-463 | the output buffer is the encoding of the fields |
| WasmModule.Module.StripExports | internal/wasmpass/passes.go:110-122 | every export whose name is a root stays, each occurrence, in order, and no other; the count is the number of exports that are no roots |
| WasmModule.RootsKept | internal/wasmpass/passes.go:110-122 | the same, of the list of exports before and after |
| WasmModule.Module.Prelink | internal/wasmpass/passes.go:126-169 | imports, globals, tables, memories and offsets become the prelinked ones; the stack pointer's index is the one before |
| WasmModule.ImportsPicked | internal/wasmpass/passes.go:133-158 | the imports left are exactly those that are no memory, no table and no global with a base value, in order |
| WasmModule.Module.GlobalIndexOfImport | internal/wasmpass/wasm.go:405-418 | the index is that of the first global import with this name among the global imports; it is negative if and only if there is none |
| WasmModule.Module.Instrument | internal/wasmpass/passes.go:244-302 | every body with sites is rewritten and no other, the reported counts are exact, and it fails exactly where the original panics |
| PrelinkFacts.FunctionsStay | internal/wasmpass/passes.go:126-158 | function indices never move |
| PrelinkFacts.GlobalIndicesStay | internal/wasmpass/passes.go:133-161 | which global each index of the prelinked module denotes: every index denotes the same global as before if and only if all kept global imports precede all internalized ones; entries of the old global section never move |
| PrelinkFacts.GlobalMoves | internal/wasmpass/passes.go:133-161 | the index each imported global comes to; an internalized one keeps its index if and only if every kept global import is in front of it, a kept one if and only if no internalized one is |
| PrelinkFacts.MovedApart | internal/wasmpass/passes.go:133-161 | no two globals come to the same index |
| PrelinkFacts.StackPointerStays | internal/wasmpass/passes.go:126-128 | the index remembered for the stack pointer names it in the original module, and in the prelinked one if and only if that condition holds of it |
| PrelinkFacts.GlobalIndicesCanMove | internal/wasmpass/passes.go:133-161 | a module whose global indices do move |
| PrelinkFacts.FoldKeepsOffset | internal/wasmpass/passes.go:171-181 | a folded offset has the same value if and only if the global it names is 0 |
| PrelinkFacts.InstantiationStays | internal/wasmpass/passes.go:133-191 | a fresh instance has the same initial memory and table before and after, traps included, if the globals that offsets name are 0 |
| PrelinkFacts.BaseOffsetsAreZero | internal/wasmpass/passes.go:171-172 | an offset that names a base global with value 0 is such an offset |
| PrelinkFacts.MemSectionReads | internal/wasmpass/passes.go:183-191 | the synthesized memory section reads as one memory with the import's limits |
| PrelinkFacts.TableSectionReads | internal/wasmpass/passes.go:187-191 | the synthesized table section reads as one table with the import's limits |
| PrelinkFacts.MemoryWritten | internal/wasmpass/passes.go:135-136 | the memory section of the prelinked module is the last imported memory, or the old section if none is imported |
| PrelinkFacts.TableWritten | internal/wasmpass/passes.go:137-138 | the table section is the last imported table, its element type included, or the old section |
| PrelinkFacts.NewGlobalsRead | internal/wasmpass/passes.go:140-161 | the global section starts with the internalized globals in order, with type, mutability and base value, and goes on with the old ones |
| MemTree.PathIsUnique | vfs/memfs.go:22-37 | every attached node has exactly one path |
| MemTree.NoCycle | vfs/memfs.go:22-37 | no attached node lies below itself |
| MemTree.LinkEffect | vfs/memfs.go:157-159 | filing a detached node shows its subtree at the new path and changes no other path |
| MemTree.CutEffect | vfs/vfs.go:564-566 | deleting an entry removes it and all below, and changes no other path |
| MemTree.MkdirEffect | vfs/memfs.go:119-142 | exactly the missing prefixes become new directories, whiteouts among them; it fails exactly when a file or link is in the way, and then has changed nothing |
| MemTree.PlaceEffect | vfs/memfs.go:146-161 | an existing node is filed at its new path, the invariant holds, other paths keep their nodes |
| MemTree.PlaceNewEffect | vfs/memfs.go:146-161 | the same for a node made for the purpose |
| MemFS.Layer.Find | vfs/memfs.go:102-115 | the loop returns the raw node at the path, or nothing |
| MemFS.Layer.MakeAll | vfs/memfs.go:119-142 | the loop has the effect of the recursive definition |
| MemFS.Layer.PlaceNode | vfs/memfs.go:146-161 | files the node in the directory the loop has made |
| Resolve.ResolvedIsStable | vfs/vfs.go:145-185 | a successful resolution ends in a path no prefix of which is a link, and resolving that path again gives the same entry and path |
| Resolve.DepthOnlyCuts | vfs/vfs.go:145-148 | the depth bound never changes an answer, it only cuts one off |
| Resolve.RingFails | vfs/vfs.go:145-185 | links that lead to each other in a ring of any length end in failure |
| Resolve.EvalPlain | vfs/vfs.go:145-185 | where the directories are plain, resolution is the plain lookup |
| Resolve.CleanLaws | vfs/vfs.go:58-64 | a component goes away together with a ".." behind it, ".." at the root stays there, and empty components and "." say nothing, wherever they stand |
| Resolve.EvalLaws | vfs/vfs.go:145-185 | resolution obeys the same laws |
| Resolve.LinkFollowed | vfs/vfs.go:167-178 | a link leads to its target from the root or from the directory it is in, at one level more; not followed, it is found itself |
| Resolve.LinkOnTheWay | vfs/vfs.go:158-180 | a link on the way is followed always, and what is below it is looked for where it leads |
| Resolve.ChainResolves | vfs/vfs.go:145-178 | a chain of links is followed to its end if and only if it has no more than forty links |
| OverlayTree.StepKeeps | vfs/vfs.go:217-713 | every operation but a renaming of the root keeps the tree invariant and leaves descriptors on existing nodes that are no whiteouts |
| OverlayTree.MoveKeeps | vfs/vfs.go:609-635 | the tree stays a tree also when a directory is moved below the path it used to have |
| OverlayTree.ReachableTree | vfs/vfs.go:76-89 | in every reachable state: one path per node, no cycles, each child filed under its own name with its parent, and no lookup or descriptor leads to a whiteout |
| OverlayTree.RenameRoot | vfs/vfs.go:609-635 | renaming the root destroys the tree if and only if it succeeds, and it succeeds exactly when the lower layer has no root entry and the target can be placed |
| OverlayFS.FS.Lookup | vfs/vfs.go:129-140 | upper layer first, whiteouts hide, then the lower layer |
| OverlayFS.FS.Resolved | vfs/vfs.go:145-185 | the loop and its recursive calls compute the resolution, and end |
| OverlayFS.FS.CopiedUp | vfs/vfs.go:217-237 | the node in the upper layer, made from the lower entry if need be |
| OverlayFS.FS.ListNames | vfs/vfs.go:533-560 | the two loops return each merged name exactly once |
| OverlayFS.FS.Open | vfs/vfs.go:323-379 | new state and descriptor, for every combination of flags and entries |
| OverlayFS.FS.Write | vfs/vfs.go:416-427 | the node's new bytes and spare capacity and the descriptor's new offset, or an unchanged state |
| OverlayFS.FS.Unlink | vfs/vfs.go:576-588 | new state, or an unchanged one on error |
| OverlayFS.FS.Rmdir | vfs/vfs.go:591-606 | new state, or an unchanged one for a missing, non-directory or non-empty path |
| OverlayFS.FS.Rename | vfs/vfs.go:609-635 | new state, including the state a failed rename leaves |
| OverlayFS.FS.Truncate | vfs/vfs.go:648-673 | copy-up, the new length with what is cut off kept as spare capacity or with zero fill in a new store, and the descriptor moved to the upper node |
| OverlayFS.FS.Dup | vfs/vfs.go:698-726 | a second descriptor with the first one's fields, or a placeholder for a standard stream |
| OverlayFS.FS.Readdir | vfs/vfs.go:518-530 | the names of the directory, each once |
| OverlayFS.FS.Chdir | vfs/vfs.go:286-300 | the new working directory for what resolves to a directory, or an unchanged state |
| OverlayLinks.NamesLead | vfs/vfs.go:58-64 | an absolute name says the same everywhere, a relative one leads below the working directory, ".." to the one above |
| OverlayLinks.DirectoryEntered | vfs/vfs.go:286-300 | changing the directory succeeds if and only if the name resolves to a directory; relative names lead below that name from then on |
| OverlayLinks.DirectoryStays | vfs/vfs.go:58-64 | in every run the working directory is a cleaned name, and only changing it changes it |
| OverlayFlat.EvalIsShown | vfs/vfs.go:129-185 | without links, Stat and Lstat resolve exactly what the plain lookup shows |
| OverlayFlat.RemoveShown | vfs/vfs.go:563-573 | removing a file removes it from the view and changes nothing else, whichever layers have it |
| OverlayFlat.PutNew | vfs/vfs.go:272-283 | placing a file is putting it in the flat table, and only the file it replaces loses its path |
| OverlayMoves.CopyUpShown | vfs/vfs.go:217-237 | copying a file up changes no path's entry and no file's path |
| OverlayMoves.SetStoreShown | vfs/vfs.go:416-449 | new contents show at the one path the node has, or nowhere |
| OverlayMoves.MoveShown | vfs/vfs.go:609-635 | a rename of a file moves it for the view and for every descriptor, or fails and has lost it; it succeeds if and only if the target has a name and the upper layer, as it was before, has no file on the way to it but the renamed one; a lower file on the way becomes a directory |
| OverlayMoves.SymlinkLeads | vfs/vfs.go:684-695 | a new symlink is what Lstat shows at its path, Stat resolves it to what its target resolves to, and no other path looks different |
| OverlayLinks.LinkMade | vfs/vfs.go:684-695 | a link made shows where it is made, with its target as given, and nothing else changes |
| OverlayLinks.LinkRemoved | vfs/vfs.go:563-588 | unlinking a link removes the link and leaves every other path, its target among them, as it was; a link of the lower layer that leads nowhere stays |
| OverlayLinks.LinkMoved | vfs/vfs.go:609-635 | renaming a link moves the link with its target text, and changes no other path |
| OverlayLinks.LinkNoRmdir | vfs/vfs.go:591-606 | a link to a directory is no directory for Rmdir |
| OverlayLinks.LinkOpened | vfs/vfs.go:323-379 | opening a link is opening its target; if that is missing, an open that creates puts its file in the place of the link |
| OverlayLinks.LinkOverwritten | vfs/vfs.go:272-283 | writing a file by the name of a link replaces the link, and leaves its target alone |
| OverlayLinks.RemovedThroughLink | vfs/vfs.go:563-588 | unlinking a path below a link of the upper layer changes nothing, whatever it answers; it answers with success if and only if the path resolves to something that is no directory and the lower layer has nothing at the path as written |
| OverlayLinks.UnlinkThroughLink | vfs/vfs.go:563-588 | over a lower file /d/f, with a link /l to /d: unlinking /l/f succeeds, and the file is still there |
| OverlayMoves.NamesAreShown | vfs/vfs.go:533-560 | a listing has exactly the visible names |
| OverlayMoves.RmdirShown | vfs/vfs.go:591-606 | removing an empty directory the lower layer does not have removes it and nothing else |
| OverlayRefines.ResizeShown | vfs/vfs.go:648-673 | truncating or extending a file at the path its descriptor was opened at, for reading or for writing, shows at that path and nowhere else, and the descriptor is at the file from then on |
| OverlayRefines.StepRefines | vfs/vfs.go:264-726 | each allowed operation takes matching states to matching states with the same answer |
| OverlayRefines.RunRefines | vfs/vfs.go:264-726 | so does every run |
| OverlayRefines.OverlayIsFlat | vfs/vfs.go:129-140 | over any allowed run from scratch of opening, reading, writing, truncating, making directories, unlinking, removing, renaming, changing the working directory, duplicating and closing, through descriptors of files that are there, renamed, replaced or unlinked, what Stat and Lstat show at every path is what one flat filesystem holds, and all answers are its answers |
| OverlaySpare.StepClean | vfs/vfs.go:264-726 | every operation but a shortening truncation leaves the spare capacity behind all files zero |
| OverlaySpare.WritesAreExact | vfs/file.go:52-77 | over any run from scratch in which no file is cut short, every write through any handle gives the file exactly the bytes it should, gaps reading as zeros |
| OverlayLimits.MkdirOverFile | vfs/memfs.go:119-142 | making a directory below a visible file is refused if and only if the file is in the upper layer; a lower file is replaced by a directory |
| OverlayLimits.MkdirReplaces | vfs/memfs.go:119-142 | a lower file /f: making /f/x succeeds and turns /f into a directory |
| OverlayLimits.RmdirThenMkdir | vfs/vfs.go:563-573 | a directory removed and made again shows everything the lower layer has in it |
| OverlayLimits.MadeAgainIsEmpty | vfs/vfs.go:563-573 | so it is empty if and only if the lower layer has nothing in it |
| OverlayLimits.DeletedComesBack | vfs/vfs.go:563-573 | a lower file /d/f is unlinked, /d removed and made again: /d/f is back |
| OverlayLimits.RenameLoses | vfs/vfs.go:620-634 | /a and /b are written, and /a renamed to /b/c: the rename fails and /a is gone |
| OverlayLimits.FileOverDirIff | vfs/vfs.go:272-283 | a file put over a directory has nothing below it if and only if the lower layer has nothing in the directory |
| OverlayLimits.FileOverDir | vfs/vfs.go:272-283 | it is put there, and what the lower layer has shows below it |
| OverlayLimits.FileWithEntries | vfs/vfs.go:272-283 | over a lower file /d/f a file is written to /d: /d is a file, and /d/f is still there |
| OverlayLimits.WritesIff | vfs/file.go:52-77 | a write through a descriptor gives its file the bytes it should have if and only if it leaves no gap, needs a new store, or finds zeros in the gap |
| OverlayLimits.CutThenWrite | vfs/vfs.go:665-666 | a file cut to nothing and written behind its end shows its old bytes in the gap |
| OverlayLimits.OldBytesReturn | vfs/vfs.go:665-666 | a run in which that happens |
| OverlayLimits.ReadsIff | vfs/vfs.go:398-412 | however much is read, a descriptor answers as the flat filesystem does if and only if it reads its file itself, or what is left of what it saw is what is left of the file |
| OverlayLimits.StaleRead | vfs/vfs.go:241-257 | a descriptor opened to read a lower file keeps reading the old bytes after another one has written the file |
| OverlayLimits.TruncateEffect | vfs/vfs.go:648-673 | a truncation resizes whatever file stands where its descriptor was opened, makes it again from the lower layer if none does, and fails if there is none; wherever the descriptor's own file is |
| OverlayLimits.TruncatesIff | vfs/vfs.go:648-673 | so it answers as the flat filesystem does and leaves the same table if and only if the file is where it was opened; or has no path, and nothing can be found there; or is elsewhere, and neither it nor what is found changes |
| OverlayLimits.ReachableDescriptors | vfs/vfs.go:264-726 | both hold in every state an allowed run from scratch reaches |
| OverlayLimits.UnlinkedComesBack | vfs/vfs.go:648-673 | a lower file is opened for writing, unlinked, and truncated through the descriptor: it is back |
| OverlayLimits.RenamedStays | vfs/vfs.go:648-673 | a file is opened, renamed, and truncated through the descriptor: that fails, and the file keeps its bytes |
| GrowBuffer.Buffer.WriteAt | vfs/file.go:52-77 | the array is grown and overwritten as the value-level definition says; only a negative offset fails |
| GrowBuffer.CapacityIsLargest | vfs/file.go:59-66 | the new capacity is the largest of what is needed, twice the old one, and 4096 |
| GrowBuffer.WriteContents | vfs/file.go:52-77 | a write gives the file the bytes it should have if and only if its gap lies in fresh store or in spare capacity that is still zero |
| GrowBuffer.RunContents | vfs/file.go:52-77 | after any series of writes into an empty file each position holds what the last write over it put there, gaps and spare capacity are zero |
| GrowBuffer.RunCost | vfs/file.go:49-67 | all reallocations together copy no more than the final capacity, which is at most 4096 or twice the length |
| GrowBuffer.ShrinkThenWrite | vfs/vfs.go:665-666 | after a shrinking truncate a write past the end brings old bytes back |
| Persist.SaveSubtree | vfs/persist.go:21-84 | the host directory mirrors the subtree: files, directories, empty ones too, and links; whiteouts leave nothing; it fails exactly when there is no directory |
| Persist.SaveNode | vfs/persist.go:45-84 | the recursion ends on every valid tree and writes exactly the subtree below its directory |
| Persist.LoadSubtree | vfs/persist.go:90-152 | whatever the order of the walk and whatever is there already, the host directory is merged in: its entries replace what stood at their paths, files and links with all below them, and nothing else changes; it fails if and only if a file or link stands where a directory must be, and what was loaded before stays |
| Persist.VacantMirrors | vfs/persist.go:90-152 | into a place where nothing shows, the load succeeds and gives a mirror of the host directory |
| Persist.FreshIsVacant | vfs/vfs.go:48-56 | a new filesystem is such a place at every path |
| Persist.SaveAndReload | vfs/persist.go:21-152 | any subtree saved, loaded anywhere into a new filesystem and saved from there: the two filesystems show the same, and the two host directories are identical |
| Persist.SavedIsOk | vfs/persist.go:45-84 | what is saved can be loaded: everything on the host lies in a directory |
| Persist.AllUpper | vfs/persist.go:17-19 | where the lower layer has nothing, the host directory mirrors what the overlay shows |
| Argv.CallMain | emscripten/aot_port.go:163-187 | an aligned pointer array, each pointer at a terminated copy of its argument, a final null, nothing overlapping, and memory outside the two stack pointers unchanged |
| Argv.PushStrings | emscripten/aot_port.go:166-173 | the downward loop places every string below the one after it |
| Argv.OrWraps | emscripten/aot_port.go:166-178 | arguments that do not fit make some 32-bit subtraction wrap around |
| Frames.FrameParts | wire.go:308-313 | the parts of a framed message are found again, whatever follows |
| WireForms.BigEndian | wire.go:308-313 | numbers of two, four and eight bytes are read with the most significant byte first |
| WirePump.PlayedConserves | wire.go:47-48 | however reads are cut, the bytes handed over are the stretch the offset has moved over, as far as there was room for, and the capture is all that was written |
| WirePump.Conn.Exec | wire.go:103-152 | against any backend: which exported functions are called, in which order, with which arguments and at which offset, and whether it has returned, failed or is waiting; on return the answer is the capture and the message is used up |
| WirePump.CallsInOrder | wire.go:117-148 | each call of a pump by its exported name: a recovery stands exactly behind each turn of the main loop that left by a longjmp or a query error exit, a poll exactly where the message is used up and nothing else is due, and the closing two exactly behind a poll that found nothing |
| WirePump.EndsAs | wire.go:117-150 | it has failed if and only if the last call has an error and is neither such a turn nor one of the closing two; it has returned if and only if the last call is the flush |
| WirePump.ReturnedUsedUp | wire.go:117-150 | on return the offset is at the end of the message, and the last poll was without error and found nothing |
| WirePump.QueryErrorAnswered | wire.go:124-143 | a statement that fails: the five calls by name, and what the flush writes is the answer |
| WirePump.ExitTexts | wire.go:161-164 | an exit is a query error if and only if its status is 100, whichever function it left |
| WirePump.ExecConserves | wire.go:103-152 | at every moment, failed or not, the backend has been given a prefix of the message once and in order, and exactly the message once the offset is at the end |
| Relay.ReadIsFrame | serveconn.go:188-205 | reading a frontend message undoes framing and framing again gives the bytes read, for every stream |
| Relay.ServeRelay | serveconn.go:76-104 | the loop gives the batches, answers and ending of the recursive definition, for any backend and any client that may stop taking answers |
| Relay.RelayConserves | serveconn.go:76-104 | the batches put together are the client's bytes in order, up to an unfinished batch and what cannot be sent; each batch is a run of waiting messages closed by another |
| Relay.FailureConserves | serveconn.go:94-103 | when the backend or the client fails, what the backend was given is still a prefix of the stream in whole batches |
| Relay.AnswersInOrder | serveconn.go:94-103 | the client has been sent the answers to its batches, each once and in order, up to the first batch that failed |
| Relay.GroupsArrive | serveconn.go:76-104 | whatever messages a client sends, the backend is given exactly their groups |
| Relay.BatchesAreRuns | serveconn.go:76-104 | in terms of the letters: each batch is a run of P, B, D, E and C messages and one of another type; together they are all the messages up to such a run at the end or the first X, and the relay ends for that reason |
| Relay.LengthLimits | serveconn.go:191-199 | a message is refused if and only if its length is below four or above 2^30 |
| WireValues.FormatsAgree | wire.go:397-452 | the text and the binary form of every int2, int4, int8 and oid decode to that number |
| WireValues.ByteaRoundTrip | wire.go:455-473 | decoding inverts the driver's encoding for all byte strings |
| WireValues.HexFromHex | wire.go:455-485 | only hexadecimal text is accepted, of either case: encoding the bytes again gives it in lower case |
| WireValues.DecodeByteaText | wire.go:455-473 | the filling loop returns those bytes, or nothing |
| WireValues.ToHex | pgdriver/driver.go:240-248 | the filling loop returns the lower-case digits |
| WireValues.EncodeParams | pgdriver/driver.go:203-238 | parameter k is the text of the last argument with ordinal k, null for none; it fails exactly for a bad ordinal or an unsupported type |
| WireValues.ParamRoundTrip | pgdriver/driver.go:214-231 | integers, booleans and byte strings sent as parameters read back unchanged |
| WireForms.IntegersRead | wire.go:401-404 | a sign or none and digits are read as the number they stand for, if and only if that fits 64 bits; anything else is no number |
| WireForms.DigitsWritten | pgdriver/driver.go:214-231 | a number is written in its digits, without leading zeros |
| WireForms.HexAt | pgdriver/driver.go:240-248 | the two digits of each byte, the high one first |
| WireForms.ValuesRead | wire.go:397-452 | every value of every type but the floats reads as itself from the text and from the binary form a server sends |
| WireForms.OtherText | wire.go:397-417 | other text: "true" is true, and what is not of its type, and everything of other types, stays text |
| WireForms.OtherBinary | wire.go:420-452 | other bytes: a boolean is true unless its byte is zero; bytes of a wrong length, and everything of other types, stay text |
| WireForms.ParamsSent | pgdriver/driver.go:214-231 | a parameter is sent as the text a server would send for its value; a string is sent unchanged |
| WireDecode.DecodeRowDesc | wire.go:354-367 | the loop over the shrinking slice reads the columns, or fails where it would read past the end |
| WireDecode.DecodeDataRow | wire.go:369-393 | the loop reads the values, nulls among them |
| WireDecode.Parse | wire.go:317-352 | the message loop folds the buffer into the answer, affected rows included |
| WireDecode.AffectedIs | wire.go:508-519 | the row count is the last word of the command tag if that is a 64-bit number, and 0 otherwise |
| WireDecode.AffectedRoundTrip | wire.go:508-519 | the number a tag ends in is the number read |
| WireDecode.MessageMeans | wire.go:327-345 | decoding a well-formed message has exactly the effect the message means |
| WireDecode.StreamMeans | wire.go:317-352 | every stream of well-formed messages decodes to all its columns and rows in order, its last command, error and status |
| WireForms.RowsArrive | wire.go:317-393 | any columns and any rows of values, each field sent in the format its column says: what is read is those columns and those values, nulls among them |
| WireForms.ErrorMeans | wire.go:487-506 | the error is the last severity, a colon and the last message, or the message alone |
| WireForms.AnswerRead | wire.go:317-352 | one answer, byte by byte, and what it is read as |
| WireForms.CutMessageStops | wire.go:320-326 | a message of which bytes are missing ends the decoding, without an error |
| WireForms.CutPayloadFails | wire.go:354-393 | a row description or a row cut short anywhere is a read past the end |
| WireDecode.DescribeResultOIDs | wire.go:287-304 | the smaller loop computes the last row description's type OIDs and the last error text |
| WireDecode.DescribeAgrees | wire.go:287-304 | on every buffer the full decoder gets through, the small one finds the same type OIDs and the same error |
| ImportPatch.ReadLEB128U | emscripten/patch.go:136-147 | the loop reads the number modulo 2^64, also when it is cut off |
| ImportPatch.EncodeLEB128U | emscripten/wasm.go:6-20 | the loop writes the canonical encoding |
| ImportPatch.PatchOneMeans | emscripten/patch.go:61-128 | the patched import reads as the original with its module redirected; rewriter and reader take the same bytes if and only if the limits do not have flag byte 3 |
| ImportPatch.SharedMaxCut | emscripten/patch.go:110-127 | the import of any shared memory with a maximum is cut short of its end |
| ImportPatch.SharedMemoryCut | emscripten/patch.go:110-127 | one such import |
| ImportPatch.SectionMeans | emscripten/patch.go:52-134 | parsing the patched section gives the original imports in order with only non-function imports of "env" renamed |
| ImportPatch.RedirectAt | emscripten/patch.go:76-84 | import by import: the same name and type, and the module "env.extras" exactly for what is no function of "env" |
| ImportPatch.ModuleMeans | emscripten/patch.go:15-48 | the patched module has the same sections in order; only import sections differ |
| ImportPatch.PatchAgain | emscripten/patch.go:15-48 | patching twice is patching once, byte for byte |
| ImportPatch.RewriteImportSection | emscripten/patch.go:52-134 | the loop computes the rewritten section |
| ImportPatch.PatchWasmImports | emscripten/patch.go:15-48 | the loop computes the rewritten module, and fails exactly for a bad header or a read past the end |
| Dylink.ParseDylink | emscripten/dylink.go:14-69 | the stepped reads compute the two sizes, or fail |
| Dylink.PatchKeepsSizes | emscripten/dylink.go:14-69 | the sizes are the same before and after patching when what is read lies in the first section |
| Dylink.WrittenSizes | emscripten/dylink.go:14-69 | the memory size and the table size of a leading dynamic-linking section are found as a linker writes them, whatever follows |

## Left out

- The engine ports, backend selection, host-module building, syscall and WASI handlers, code generation, downloads, caches and command-line tools.
- PostgreSQL itself: the backend is an arbitrary caller of the read and write callbacks, and nothing says that it ever returns.
- Mode bits, timestamps, mutexes, floating point (the bytes of a float are kept as they came) and time formats.
- Host functions that call back into the module: the simulation theorems reach up to the host boundary.
- Instructions outside the structured subset are environment functions without access to the flag word's meaning; an indirect call through a table other than table 0 is stuck.
- Go's slicing beyond a slice's length into its spare capacity: a read past the end of a section is a failure here.
- File descriptors are unbounded numbers; the original's 32-bit counter can wrap around.
- Wrappers that only pass on a modelled operation: `Stat`, `Lstat`, `Fstat`, `Access`, `Pread`, `Seek`, `memFS.OpenFile`, `memFS.Remove`, `memFS.Rename`.
- `lowerHas` may follow links inside the lower layer: the lower layer is given as what Lstat finds and where Stat succeeds.
- OverlayFS.FS.Write: the slice a caller gives to `WriteFile` comes without spare capacity of its own, and is not shared with the caller afterwards.
- OverlayRefines.OverlayIsFlat: symlinks, renaming directories, and renaming a file onto a directory are outside the allowed operations and have no condition here; `OverlayMoves.SymlinkLeads` says what a new symlink does, and `OverlayLinks` what the operations do with links. For the other operations that can leave the allowed ones, `OverlayLimits` and `OverlayMoves.MoveShown` have the condition.
- OverlayTree.StepKeeps: a renaming of the root is excluded, and `OverlayTree.RenameRoot` says exactly what it does.
- Instance.SameInstance: a fresh instance is taken before its start function runs, with an imported memory zeroed and an imported table empty, and global initializers are those of one constant.
- Persist.LoadSubtree: the host directory does not change during the walk, and reading it does not fail.
- Persist.SaveSubtree: host file operations do not fail.
- WirePump.Conn.Exec: does not claim that it returns; a backend that has not returned yet shows as `Pending`.
- WireDecode.AffectedIs: white space outside ASCII does not separate words.
- WireValues.EncodeParams: a float or a time comes with the text the formatting library gives for it.
- ImportPatch.SectionMeans: is stated for section sizes below 2^32 and limits without flag byte 3.
- Unwind.CooperativeUnwind: for a function that does not save the stack pointer, what it holds after an unwind is stated only for watched runs, in which calls that return normally keep it.
- The startup handshake of `ServeConn` and the building of frontend messages.

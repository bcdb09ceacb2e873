# Verified model of the Tiq bootstrap compiler

This project models the parts of Tiq's C bootstrap compiler and runtime whose correctness is least
visible from the code, and proves what they are for.

- **Owned strings in the C backend** (`Ownership*.dfy`). Which bindings own heap storage, where the
  emitter puts its frees, and a heap semantics of the emitted C. Every run of the emitted code is
  the run of a reference semantics that destroys owners when they leave scope
  (section 16.4 of the Tiq language specification), hoisted temporaries and deferred statements
  included. This yields the safety results: no double free and no free of a foreign or dead string,
  each owned string freed exactly once, no dangling mutable owner, each exactly unless the run executes
  one of a few named statements. An expression-bodied function is a body without statements whose final
  statement is the expression.
- **Expressions to SSA to WebAssembly** (`Ir*.dfy`, `Wasm*.dfy`, `Leb128.dfy`). Lowering with nested
  conditionals, the flat instruction array blocks are slices of, the dispatch-loop backend, its
  sequential phi copies, its bytes and their decoding. A function compiled all the way returns its
  source value.
- **Stream generators** (`Stream*.dfy`). One- and two-seed recurrences, in IR, in WebAssembly and as
  the function the C backend emits, with its scopes and the names it declares, each against the
  recursive definition.
- **Runtime containers** (`HashTable.dfy`, `TiqMap.dfy`, `Channel*.dfy`, `Json*.dfy`). The
  open-addressing map as a finite map with insertion order; the bounded channel under every
  interleaving, with spurious wakeups; the JSON scanner against a printer.
- **RISC-V and ELF** (`Riscv*.dfy`, `Elf*.dfy`). Constants, branches, paired relocations and PLT
  stubs, run as instruction words; object files written, read back byte by byte and read by name;
  the linked executable as a loader that knows only the file sees it.
- **Allocators** (`Arena.dfy`, `RuntimeAlloc.dfy`). Regions stay apart and keep their bytes.

`Bits.dfy`, `Alignment.dfy` and `Slices.dfy` hold shared arithmetic. An algorithm that loops over
mutable state in C is a method here, proved equal to a specification function; the properties are
lemmas about that function.

## What was found

Where the code does less than its documentation says, the model keeps the code and the exact
condition is proved.

- A string bound to an owner or a temporary is never freed exactly when the run executes a statement of
  one of these kinds (`FreedExactlyOnceIff`); for each there is a program.
  - An owning binding written last in a block: the parser makes it the block's final expression and
    the emitter frees only owners among the other statements (`TrailingBindingNeverFreed`). Likewise a
    deferred one (`DeferredBindingNeverFreed`).
  - Anything that ends the process inside an expression while something is owned, an embedded
    `proc_exit` (`ExitInExpressionLeaks`) or a called function that exits (`CalleeExitLeaks`).
  - A jump, an exit or an owner's reassignment inside more than 64 scopes: one block fewer and the
    string is freed (`DeepExit`).
  - An exit, a jump out of the loop around it, or a reassignment of the block's own mutable owner among
    a block's deferred statements, which are printed with the block's scope popped
    (`DeferredExitLeaks`, `DeferredBreakLeaks`, `DeferredReassignLeaks`).
- For the same reason a deferred assignment to a variable that owns nothing is taken for one of a
  mutable owner of that name which an enclosing scope declares later, and the variable's value is freed:
  `{ mut s = "x"; defer s <- fs_read("f"); print(s) }; mut s = fs_read("g")` frees a literal
  (`LiteralFreed`). Frees are of live owners only, and the accounts come out even, if and only if a run
  executes no such assignment (`AccountsIff`); `Settled` is a condition on the text that rules it out
  (`SettledNeverStrays`).
- A `proc_exit` written last in a function is its result expression, printed without the frees that a
  statement-level exit gets: when it is reached the body loses strings exactly if its text declares an
  owner (`ExitingFunction`, `ExitingFunctionLeaks`).
- A fresh-result function may return a string that a function it called keeps (`ReturnedButKept`), and
  a mutable owner initialised by such a call is then not the string's only holder
  (`MutableOwnerShared`). `ResultUnkept` is a test on the function's text under which its result is
  kept by nobody (`FreshResultIsFresh`).
- Appending an instruction to a block that is neither empty nor the last one written makes its range
  swallow other blocks' instructions (`AppendViewIff`). The lowering modelled here never does it.
- Emitting phi copies one after another equals copying all at once exactly when no earlier target is
  a later source (`SequentialIff`). The lowering modelled here always satisfies it.
- The WebAssembly register-type table ends at register 4096, and later registers count as 64-bit
  integers. A lowered function is translated faithfully if and only if no Boolean is defined from
  there on (`LoweredReady`, `StreamReadyIff`); `0 + ... + 0 == 0` with 2047 additions never returns
  (`TestTraps`).
- The function emitted in C for a generator declares `n`, `i` and `t` beside the program's names.
  `NamesWorkIff` says which parameter, binder and index names are safe, and for all others a generator
  exists whose function does not compile or returns something else. With `[1, 1 ... (t, b) -> t + b]`
  the binder is hidden by the loop's own `t` (`HiddenBinder`).
- Lowering binds the index as `i` whatever the program calls it. All generators with given parameter,
  binder and index names are lowered to functions that return their terms if and only if the index is
  called `i` and nothing else is (`NamesLowerIff`): a parameter called `i` is taken for the index
  (`ParameterIsIndex`), a binder called `i` is overwritten by the counter (`BinderIsIndex`), and an index
  of another name is not bound at all and its use reads register -1 (`IndexUnbound`).
- A load or store of a symbol may name `x0` as its address register; it then never reaches the symbol
  (`ZeroBaseMisses`). The assembler accepts it.
- An `auipc` pair reaches its symbol for displacements from -2^31 - 2^11 up to but excluding
  2^31 - 2^11, and for no others (`PairReaches`); the linker does not check.
- The object reader numbers sections densely but the linker switches on fixed numbers; they agree
  exactly when every lower-numbered section is present too (`DenseIsFixedIff`).
- `json_get` compares a key with the member's spelling: members are found under their own names if and
  only if those contain no quote, backslash or newline (`FoundByNameIff`, `QuoteIsLost`).
- JSON strings with `\b` or `\f` are read as the letters (`ReadsIff`), and control characters other
  than newlines are written as they are (`WritesIff`).
- The runtime arena aligns offsets, not addresses (`AlignedIff`, `OverAlignedRequest`); pool blocks are
  aligned for every request a pool serves.

## Model

| member | source | states |
|---|---|---|
| OwnershipTheorems.EmittedProgramRefines | src/emit_c.c:1758-2062 | For every program, every stream of choices and every loop bound, running the emitted C, hoisted temporaries and deferred statements included, ends as the reference semantics ends (normally, by exit from a statement or from inside an expression, or out of fuel) with the same heap, including the order of frees. |
| OwnershipTheorems.AccountsIff | src/emit_c.c:518-538 | When a run of the emitted program has ended, all its frees were of live strings and, string by string, those bound are those freed and those given up, if and only if the run executed no deferred assignment that frees the value of a variable owning nothing. |
| OwnershipTheorems.NeverFreedTwice | src/emit_c.c:389-547 | At any nesting depth no run without such an assignment frees an address twice, frees a dead or foreign address, or frees one that was never bound to an owner or a temporary. |
| OwnershipTheorems.SettledNeverStrays | src/emit_c.c:518-538 | A condition on the text under which no run executes one: no deferred statement assigns an owned builtin's result to a variable of the blocks it is deferred in whose name an enclosing scope gives to a mutable owner. |
| OwnershipTheorems.FreedExactlyOnceIff | src/emit_c.c:389-547 | When such a run has ended, each string ever bound to an owner or a temporary has been freed exactly once if and only if the run executed no statement that loses one: an exit inside an expression while something was owned, an owning binding in final or deferred position, a jump, exit or owner's reassignment inside more than 64 scopes, or one among the deferred statements of a block it takes a string from. |
| OwnershipLeaks.StmtShows | src/emit_c.c:389-547 | The induction behind both: over any executed statement, strings are given up, or about to be, exactly when an executed statement shows it, and a value is freed by mistake exactly when one shows that. |
| OwnershipTheorems.FreedExactlyOnce | src/emit_c.c:401-547 | A condition on the text: a program without losing statements frees every string bound exactly once and no other, whenever it does not end inside an expression. |
| OwnershipTidy.FromFine | src/emit_c.c:389-547 | The induction behind the conditions on the text: statements that meet them execute none of the statements that lose a string or free one by mistake. |
| OwnershipInit.OwningIff | src/emit_c.c:110-170 | An initialiser without `proc_exit` is taken for an owning one if and only if every evaluation of it that comes to an end, in every state and for every stream of choices, gives a string allocated in it. |
| OwnershipEscape.OwnerIff | src/emit_c.c:263-398 | A binding is an owner if and only if its initialiser always gives new storage and, if it is mutable, the rest of its scope never binds the name again, uses the variable only as a direct argument of standard-library functions, calls no function of that name, and assigns it only results of owned builtins. |
| OwnershipTheorems.MutableOwnersHeldOnce | src/emit_c.c:273-386 | The escape test is sound: after every statement a run executes, deferred ones included and at any nesting depth, each mutable owner's string is live and no other variable and nothing kept elsewhere holds it, and what was destroyed for mutable owners is held by nobody, when their initialisers are builtins or fresh-result functions whose result nobody keeps and the run frees no value by mistake. |
| OwnershipFunctions.FunctionOwnersHeldOnce | src/emit_c.c:273-386 | The same after every statement of a function call, its deferred statements and its result included. |
| OwnershipHeld.EvalAvoids | src/emit_c.c:263-377 | An expression the escape test accepts neither yields the owner's string nor lets it be kept. |
| OwnershipExamples.TrailingBindingNeverFreed | src/emit_c.c:1971-2002 | A concrete well-formed program whose owned string is still live when it ends. |
| OwnershipExamples.DeferredBindingNeverFreed | src/emit_c.c:1986-1988 | The same with the binding deferred. |
| OwnershipExamples.DeferredExitLeaks | src/emit_c.c:1986-1988 | `{ s = fs_read(); defer proc_exit(0); print(0) }` ends with `s` allocated. |
| OwnershipExamples.DeferredBreakLeaks | src/emit_c.c:1986-1988 | A loop left by a deferred `break` keeps the block's string allocated. |
| OwnershipExamples.DeferredReassignLeaks | src/emit_c.c:1986-1988 | `{ mut s = fs_read(); defer s <- fs_read(); print(0) }` frees the second string only. |
| OwnershipExamples.LiteralFreed | src/emit_c.c:518-538 | A program accepted by the language whose emitted C frees a string literal. |
| OwnershipExamples.ExitInExpressionLeaks | src/emit_c.c:1044 | `s = fs_read(); y = proc_exit(0)` ends with `s` allocated. |
| OwnershipExamples.CalleeExitLeaks | src/emit_c.c:540-547 | So does a program whose text is in order when a function it calls exits. |
| OwnershipExamples.DeepExit | src/emit_c.c:493-547 | An exit inside n blocks frees the outer string if and only if n is below 64. |
| OwnershipExamples.ReturnedButKept | src/emit_c.c:436-460 | A fresh-result function that returns, live, a string kept elsewhere. |
| OwnershipExamples.MutableOwnerShared | src/emit_c.c:378-386 | A mutable owner initialised by such a call shares its string. |
| OwnershipFunctions.EmittedFunctionRefines | src/emit_c.c:2755-2827 | The emitted body of a function, its deferred statements first to last before the result, ends with the result, heap and outcome of the reference function, for all three return policies, for bodies that end the process and for those whose last statement is `proc_exit`. |
| OwnershipFunctions.FreshResultIsFresh | src/emit_c.c:436-460 | A function classified as returning a fresh string returns one allocated during the call, live, without a bad free, and kept by nobody if it is a builtin's result or passes the escape test over the rest of the body. |
| OwnershipFunctions.FunctionFreesIff | src/emit_c.c:2736-2822 | A call, whether it returns or exits and whatever the body ends in, has freed every string its body bound exactly once, except the one it returns by the name of an owner, if and only if no statement it executed lost one, the result included, and it did not return, with an owner declared, a value that is not a scalar and whose expression is neither a string literal, a string from an owned builtin, nor the name of a string owner. |
| OwnershipFunctions.ScalarFunctionFrees | src/emit_c.c:2741-2752 | A call with a scalar result that returns and executes no losing statement has freed each string its body bound exactly once. |
| OwnershipFunctions.FunctionReturns | src/emit_c.c:2799-2827 | The emitted body returns the value of the expression it ends with, in the state its statements and then its deferred ones lead to, or exits in it; zero when it ends with a binding, an assignment or nothing. |
| OwnershipFunctions.FreshByText | src/emit_c.c:420-460 | A function is fresh-result if and only if its result type is a string and its final expression is an owned builtin call or the name of an owner its body declares. |
| OwnershipFunctions.ExitingFunction | src/emit_c.c:2799-2817 | A body ending in `proc_exit` ends the process there with nothing freed; if nothing was lost before, strings are lost exactly when the text declares an owner. |
| OwnershipExamples.ExitingFunctionLeaks | src/emit_c.c:2799-2817 | `{ s = fs_read(); proc_exit(0) }` as a function ends the process with `s` allocated. |
| OwnershipHoist.PrintedRuns | src/emit_c.c:1760-2057 | Running the printed declarations, statement and frees is running the statement with temporaries that whole programs are made of. |
| OwnershipPutBack.ChosenIsExpression | src/emit_c.c:569-595 | With the initialisers put back for the names of the hidden bindings, newest first, what a statement computes is its own expression again; each hidden binding owns its value and is used exactly once, after it is computed; if there are at most sixteen temporaries no owned string is made in an argument of a standard-library or fresh-result function, or dropped, without a hidden binding, and if there are more there are no hidden bindings. |
| OwnershipMeaning.ComputesExpression | src/emit_c.c:1760-2057 | When the arguments that stay in place only read, the statement with its hidden bindings ends with the value and the heap of its expression, or ends the process in that heap. |
| OwnershipMeaning.NothingLeftAlive | src/emit_c.c:1760-2057 | For such a statement without conditionals and with at most sixteen temporaries, the strings alive after it are those alive before and the one it binds. |
| OwnershipHoist.TemporariesFreed | src/emit_c.c:1760-2057 | A simple statement that runs to its end has freed each hoisted temporary exactly once, newest first, right after the statement's own frees, and no program variable holds one. |
| OwnershipHoist.OverflowHoistsNothing | src/emit_c.c:1760-1775 | With more than 16 temporaries the statement is emitted unchanged. |
| OwnershipHoist.TemporariesForgotten | src/emit_c.c:569-595 | Temporaries handed to builtins only are kept by nobody once freed. |
| OwnershipSim.SimFrom | src/emit_c.c:1758-2062 | The simulation behind the above, for the rest of any scope on any scope stack, tracked or overflowing. |
| OwnershipSim.SimBlock | src/emit_c.c:1971-2002 | The same for a block: statements, last statement, deferred statements last to first with the block's scope popped, frees. |
| OwnershipCorrect.ScopeFreesRun | src/emit_c.c:401-414 | Running a scope's frees destroys exactly its owners, last declared first. |
| OwnershipCorrect.JumpFreesRun | src/emit_c.c:506-516 | Running the frees before `break` or `skip` destroys the owners of every scope up to and including the loop body. |
| OwnershipCorrect.ExitFreesRun | src/emit_c.c:540-547 | Running the frees before `proc_exit` destroys the owners of every enclosing scope. |
| OwnershipCorrect.ReassignsOwnerIff | src/emit_c.c:518-538 | The innermost-declaration search recognises the reassignment of a variable of the scopes on the stack exactly when the variable is a mutable owner at run time. |
| OwnershipCorrect.ReassignsIsSearch | src/emit_c.c:518-538 | For a variable whose scope has been popped the search finds what the enclosing scopes declare by that name. |
| OwnershipEmitter.EmitContext.EmitStatement | src/emit_c.c:1758-2062 | The emitter that pushes, pops and updates its scope array and appends to its output prints the specified C, hidden bindings and deferred statements included, and leaves the stack as it was. |
| OwnershipEmitter.EmitContext.EmitLoop | src/emit_c.c:1923-1969 | The same for loops. |
| OwnershipEmitter.EmitContext.EmitMain | src/emit_c.c:2693-2715 | The top-level scope with its frees, as specified. |
| OwnershipEmitter.EmitContext.EmitFunctionBody | src/emit_c.c:2755-2827 | A function's body with its scope pushed throughout: statements, deferred statements in order, result and frees, as specified. |
| IrLowerCorrect.LowerRuns | src/ir_lower.c:187-388 | Running the CFG from the current block reaches the returned current block with the returned register holding the source value, older registers unchanged, inside any function that completes the lowered one. |
| IrFunction.FunctionRuns | src/ir_lower.c:887-942 | A lowered function applied to well-typed arguments returns the value of its body. |
| IrFunction.SingleAssignment | src/ir_lower.c:187-388 | In a lowered function every register is defined exactly once, parameters by the call. |
| IrFunction.WellTerminated | src/ir_lower.c:340-384 | Every block of a lowered function is straight-line code followed by one terminator. |
| IrBuild.AppendViewIff | src/ir.c:127-147 | Appending to the flat array appends to the block's slice and changes no other block if and only if the block is empty or last. |
| IrBuild.AppendPartitioned | src/ir.c:127-147 | Such an append keeps the block ranges contiguous, disjoint and covering. |
| IrBuild.IrFunc.EmitIntoBlock | src/ir.c:127-147 | The append on the mutable function, for any block: it does what appending to the block's list would do if and only if the block is empty or last. |
| IrBuild.IrFunc.EmitPhiInto | src/ir.c:149-164 | A phi added to one block only. |
| IrBuild.IrFunc.AddNewBlock | src/ir.c:166-179 | A new empty block with a fresh index. |
| IrBuild.ExitScopeRestores | src/ir_lower.c:117-126 | Leaving a scope gives back the variable table it was entered with. |
| IrBuild.LowerCtx.Lower | src/ir_lower.c:187-388 | Step-by-step lowering on the mutable context builds what the lowering function gives and restores variables and level. |
| IrBuild.LowerDefinition | src/ir_lower.c:887-942 | A whole function definition built in place. |
| WasmCorrect.SequentialIff | src/emit_wasm.c:1118-1146 | Copying phi values one by one equals simultaneous assignment on all register files if and only if no earlier target is a later source. |
| WasmCorrect.BlockRuns | src/emit_wasm.c:1199-1245 | The code of one dispatch case performs exactly one block of the CFG and leaves the program counter on its successor. |
| WasmCorrect.BodyRuns | src/emit_wasm.c:1156-1263 | If the CFG finishes, the dispatch loop returns its result. |
| WasmLower.LoweredReady | src/emit_wasm.c:283-308 | A lowered function is typed by what the backend takes its registers for, never clobbers a phi source and targets existing blocks if and only if it defines no Boolean past the end of the register-type table. |
| WasmLower.CompiledFunctionRuns | src/emit_wasm.c:1156-1263 | Source to WebAssembly: under that condition calling the emitted body returns the value of the source function on all well-typed arguments. |
| WasmRun.WrittenFunctionRuns | src/emit_wasm.c:1156-1263 | The bytes written for a well-typed function read back as local types and code that return, for all arguments of the declared types, the value of the source body. |
| WasmTable.TestTraps | src/emit_wasm.c:280-308 | A well-typed function with value true whose emitted code never returns: its comparison's register is past the table. |
| WasmBytes.BodyDecodes | src/emit_wasm.c:745-1263 | The bytes of an emitted body's code decode to its structured code and stop at its end. |
| WasmWriter.BodyReads | src/emit_wasm.c:1156-1263 | The whole body written, local declarations included, reads back as the types of its locals and its code, whatever follows. |
| WasmWriter.WriteFuncBody | src/emit_wasm.c:1156-1263 | The buffer-appending writer succeeds exactly when every block is terminated and then appends the locals and code specified. |
| WasmWriter.BuildTable | src/emit_wasm.c:283-308 | The loops that fill the register-type table compute the specified table. |
| Leb128.UlebRoundTrip | src/emit_wasm.c:54-61 | Unsigned LEB128 decodes to the encoded number, whatever follows. |
| Leb128.SlebRoundTrip | src/emit_wasm.c:62-73 | The same for signed numbers. |
| Leb128.UlebDelimits | src/emit_wasm.c:54-61 | Two encodings with equal concatenations are equal: self-delimiting. |
| Leb128.SlebDelimits | src/emit_wasm.c:62-73 | The same for signed numbers. |
| Leb128.UlebShortest | src/emit_wasm.c:54-61 | No byte string that decodes to the number is shorter. |
| Leb128.SlebShortest | src/emit_wasm.c:62-73 | The same for signed numbers. |
| Leb128.TenBytes | src/emit_wasm.c:54-73 | At most ten bytes for any 64-bit value. |
| Leb128.Buf.WriteUleb | src/emit_wasm.c:54-61 | The loop on a shrinking value appends the encoding to the growing buffer. |
| Leb128.Buf.WriteSleb | src/emit_wasm.c:62-73 | The same with the sign-aware stopping rule. |
| StreamTwo.StreamRuns | src/ir_lower.c:970-1172 | A lowered generator returns the n-th term of the recurrence, the index being called `i`, for every n below the largest i64, and 0 for negative n. |
| StreamSource.NamesLowerIff | src/ir_lower.c:1034-1130 | Every accepted generator without conditionals that has these parameter, binder and index names is lowered to a function returning its terms, for all arguments and indices, if and only if the index is called `i` and nothing else is. |
| StreamSource.LoweredGenerator | src/ir_lower.c:985-1176 | With such names no name is unbound and the lowered function returns the n-th term of the generator as written, zero for negative n. |
| StreamCompiled.CompiledGenerator | src/emit_wasm.c:1156-1263 | Source to WebAssembly: with such names, and no Boolean past the register table, the compiled function returns the n-th term of the generator as written. |
| StreamSource.ParameterIsIndex | src/ir_lower.c:1034-1040 | `f i: [5 ... (x) -> i]` is lowered to a function that takes the index for the parameter. |
| StreamSource.BinderIsIndex | src/ir_lower.c:1034-1040 | `[5 ... (i) -> i]` is lowered to a function whose counter overwrites the binder. |
| StreamSource.IndexUnbound | src/ir_lower.c:232-236 | `[1 ... (x; j) -> x + j]` is accepted and not lowered to a function that runs: `j` has no register. |
| StreamNames.EmittedRuns | src/emit_c.c:2110-2171 | The function emitted in C, run by C's scope rules, returns the value its loop reaches, the rule seeing the emitted function's variables, uninitialised `t` included. |
| StreamNames.ApartWorks | src/emit_c.c:2110-2171 | With names apart it compiles and returns the generator's n-th term, and 0 for negative n. |
| StreamShadow.NamesWorkIff | src/emit_c.c:2110-2171 | Parameter, binder and index names are right for every rule, argument, index and uninitialised value if and only if they are apart. |
| StreamShadow.HiddenBinder | src/emit_c.c:2160-2166 | A generator with third term 2 whose emitted function compiles and returns 1. |
| StreamBuildTwo.LowerStreamGen | src/ir_lower.c:970-1172 | The imperative lowering builds exactly those blocks. |
| StreamLower.GenIsLower | src/ir_lower.c:187-388 | On straight-line expressions lowering only appends code to the current block. |
| StreamWasm.OneNoClobber | src/ir_lower.c:1056-1073 | One-seed loops never read an overwritten phi target, on any edge. |
| StreamWasm.TwoNoClobber | src/ir_lower.c:1145-1167 | The same for two-seed loops, thanks to the copies before the back edge. |
| StreamWasmTwo.StreamReadyIff | src/emit_wasm.c:283-308 | A lowered generator is one the WebAssembly backend translates faithfully if and only if it defines no Boolean past the end of the table. |
| StreamWasmTwo.CompiledStreamRuns | src/emit_wasm.c:1156-1263 | Under that condition, compiled to WebAssembly, a generator returns its n-th term. |
| HashTable.EmptyBucket | include/runtime_aux.h:1088-1095 | A table with fewer entries than buckets has an empty bucket (pigeonhole), so probing stops. |
| HashTable.Absent | include/runtime_aux.h:1078-1086 | Reaching an empty bucket on a key's path, with wraparound, proves the key absent. |
| HashTable.PlaceKeeps | include/runtime_aux.h:1043-1047 | Filling the first empty bucket on a path keeps every entry reachable and in exactly one bucket. |
| TiqMap.TiqMap.Find | include/runtime_aux.h:1078-1086 | Probing terminates with the key's entry, or -1 when absent. |
| TiqMap.TiqMap.Place | include/runtime_aux.h:1043-1047 | The probing insertion re-establishes the table, also mid-rehash. |
| TiqMap.TiqMap.Rehash | include/runtime_aux.h:1066-1076 | Doubling keeps the contents and re-indexes every entry. |
| TiqMap.TiqMap.Set | include/runtime_aux.h:1088-1117 | Refines finite-map update with insertion order, a null key counting as empty; keeps load at most 7/10 and a power-of-two bucket count. |
| TiqMap.TiqMap.Lookup | include/runtime_aux.h:1120-1123 | The key's value, or -1, a null key counting as empty. |
| TiqMap.TiqMap.KeyAt | include/runtime_aux.h:1133-1144 | The i-th inserted key, or out of bounds. |
| TiqMap.TiqMap.ValAt | include/runtime_aux.h:1133-1148 | The value of the i-th inserted key, or out of bounds. |
| TiqMap.HistoryRead | include/runtime_aux.h:1088-1127 | After any sequence of sets a read gives the last value set for the key, and the keys are the distinct keys in first-set order. |
| TiqMap.Replay | include/runtime_aux.h:1049-1117 | A map built by any such sequence of calls has those contents. |
| Channel.TiqChan.Send | include/runtime_aux.h:1215-1232 | One critical section on the mutable ring buffer: waits if and only if the channel is open and full, is refused if and only if it is closed, and else appends the value; nothing changes unless it does. |
| Channel.TiqChan.Recv | include/runtime_aux.h:1234-1251 | Waits if and only if the channel is open and empty, ends with nothing if and only if it is closed and empty, and else removes the oldest value. |
| Channel.TiqChan.TryRecv | include/runtime_aux.h:1253-1267 | Never waits; empty exactly when nothing is buffered. |
| ChannelProtocol.StepKeeps | include/runtime_aux.h:1215-1278 | Every step, including spurious wakeups and any choice of woken thread, keeps the invariant: waiters are covered by woken ones, sent is received followed by the buffer. |
| ChannelProtocol.NoLostWakeup | include/runtime_aux.h:1198-1278 | In every reachable state: no receiver sleeps over unclaimed values, no sender over unclaimed room, never both kinds asleep with nobody woken, nobody asleep after close; values arrive in order. |
| ChannelProtocol.AfterClose | include/runtime_aux.h:1269-1278 | After close nothing more is sent and what is received is a growing prefix of what was sent. |
| ChannelProtocol.DrainAfterClose | include/runtime_aux.h:1234-1251 | After close a receiver returns at once, with the next buffered value if there is one. |
| ChannelCalls.ReceiveOutcome | include/runtime_aux.h:1234-1251 | After any run, a receiver with the mutex takes the oldest value not yet received if there is one; it ends with nothing exactly when all sent values are received and the channel was closed in the run, and waits exactly when they are and it was not. |
| ChannelCalls.SendOutcome | include/runtime_aux.h:1215-1232 | After any run, a sender with the mutex adds the value of its own call behind those sent exactly when the channel was not closed and fewer values than its capacity are under way; it waits exactly when they are that many, and is refused exactly when the channel was closed. |
| ChannelCalls.TryOutcome | include/runtime_aux.h:1253-1267 | A receive that never waits takes the oldest value if there is one and changes nothing if not. |
| ChannelCalls.CloseOutcome | include/runtime_aux.h:1269-1278 | Closing ends no call and loses no value, and nobody is asleep after it. |
| ChannelCalls.BufferedFits | include/runtime_aux.h:1198-1251 | In every reachable state the values sent and not received are at most the capacity asked for (at least one), and are what the ring buffer holds, in order. |
| ChannelCalls.CanGoOn | include/runtime_aux.h:1198-1278 | In every reachable state a thread outside a call can make any, one awake in a call can take the mutex and wake any one thread asleep on the other side, and one asleep can wake. |
| JsonText.EncodeStr | include/runtime_aux.h:126-143 | Fills a 2n+3 byte buffer with the encoded string and a NUL, never past its end. |
| JsonText.ScanValue | include/runtime_aux.h:164-190 | The scanning loops find the specified end of a value. |
| JsonText.CopyOut | include/runtime_aux.h:192-216 | Copies a value out, unescaped, within the buffer allocated for it. |
| JsonText.ObjectGet | include/runtime_aux.h:218-241 | The member search as a loop. |
| JsonText.ArrayLength | include/runtime_aux.h:243-258 | The element count as a loop. |
| JsonText.ArrayGet | include/runtime_aux.h:260-276 | The element search as a loop. |
| JsonRoundTrip.StringRoundTrip | include/runtime_aux.h:126-216 | Copying out an encoded NUL-free string gives it back. |
| JsonEscapes.ReadsIff | include/runtime_aux.h:164-216 | Any string as RFC 8259 writes it, without `\u`, ends where the scanner says and is read for what it means if and only if it has no `\b` and no `\f`. |
| JsonEscapes.WritesIff | include/runtime_aux.h:126-143 | The text written for a NUL-free string is a JSON string that means it, in the form the standard asks for if and only if the string has no control character but newlines. |
| JsonRoundTrip.ValueEnds | include/runtime_aux.h:174-190 | The end of any printed JSON value, with any nesting and spacing, is found exactly. |
| JsonRoundTrip.ArrayReads | include/runtime_aux.h:243-276 | Length and i-th element of any printed array, and an empty string outside it. |
| JsonRoundTrip.ObjectReads | include/runtime_aux.h:218-241 | Getting a key from any printed object gives the first member so spelled. |
| JsonRoundTrip.FoundByNameIff | include/runtime_aux.h:218-241 | From every printed object with a member of that name the get returns the first such member's value, if and only if the name contains no quote, backslash or newline. |
| JsonRoundTrip.QuoteIsLost | include/runtime_aux.h:218-241 | The only member of an object, named by a quote, is not found. |
| RiscvLi.LiExact | src/asm_rv64.c:385-402 | Executing the words emitted for any 64-bit constant leaves exactly it in the register and changes no other. |
| RiscvLi.LiLength | src/asm_rv64.c:385-402 | At most eight instructions, two in the `lui` range. |
| RiscvLi.EmitLi | src/asm_rv64.c:385-402 | The recursive emitter appends those words. |
| Riscv.ImmBExact | src/asm_rv64.c:365-370 | A B-type word decodes to the displacement encoded, for every even one in range. |
| Riscv.ImmJExact | src/asm_rv64.c:372-376 | The same for J-type words. |
| RiscvFixups.PatchedReachesTarget | src/asm_rv64.c:1118-1142 | Patching an unresolved branch gives the word encoded with its displacement; hardware decodes that displacement, opcode and registers unchanged. |
| RiscvFixups.ResolveFixups | src/asm_rv64.c:1105-1149 | Succeeds exactly when every label exists and is in reach and even, else reports the first fault; on success every instruction is patched and no other byte changes. |
| RiscvFixups.AllReach | src/asm_rv64.c:1105-1149 | After success the offset of every instruction plus the displacement the hardware decodes from it is the offset of its label, in this section, and its opcode is kept. |
| RiscvFixups.ResolvedIff | src/asm_rv64.c:1105-1149 | A fixup is resolved if and only if its label is in this section and some instruction word of its kind leads there; it is reported undefined exactly when the label is not, and misaligned exactly when the distance is odd. |
| RiscvLink.Assembler.EmitInsn | src/asm_rv64.c:380 | An instruction word appended to the text leaves every pair before it as it was. |
| RiscvLink.Assembler.EmitPair | src/asm_rv64.c:404-425 | Appends `auipc` and its partner and keeps relocations paired. |
| RiscvLink.Assembler.LoadAddress | src/asm_rv64.c:754-768 | `la` is a pair completed by `addi`. |
| RiscvLink.Assembler.Call | src/asm_rv64.c:905-915 | `call` is a pair through `ra` completed by `jalr`. |
| RiscvLink.Assembler.LoadSymbol | src/asm_rv64.c:546-579 | Symbol loads, with the scratch rule for floats. |
| RiscvLink.Assembler.StoreSymbol | src/asm_rv64.c:581-610 | Symbol stores, with both scratch errors. |
| RiscvLink.LowHasHigh | src/asm_rv64.c:404-425 | Every low relocation has its high half four bytes earlier, same symbol and addend. |
| RiscvLink.ApplyRelocs | src/elf_link.c:600-661 | The relocation loop links every pair, both halves with the same target, and changes nothing else. |
| RiscvLink.PairReaches | src/elf_link.c:634-661 | The pair computes symbol plus addend if and only if the displacement is in range. |
| RiscvLink.LinkedPairReaches | src/elf_link.c:600-661 | The same of the linked bytes, with opcodes and registers as assembled. |
| RiscvLink.StubReachesSlot | src/elf_link.c:775-793 | A patched PLT stub loads its GOT slot and jumps there, if and only if the slot is in range. |
| RiscvRun.ExternalCalled | src/elf_link.c:613-626 | Running a linked `call` of external i ends at stub i of the PLT with the return address in `ra` and all else as it was, if and only if the stub is in reach. |
| RiscvRun.ExternalAccessed | src/elf_link.c:613-626 | Running a linked load, store or `addi` of external i uses the address of slot i of the GOT plus addend, if and only if it is in reach. |
| RiscvRun.DefinedReached | src/elf_link.c:609-661 | Running a linked call, load, store or `addi` of a symbol of the program arrives at, or uses, its address plus addend, if and only if it is in reach. |
| RiscvRun.ZeroBaseMisses | src/asm_rv64.c:546-610 | With `x0` for the address register a load or store uses the low half of the displacement alone, never an address outside the first and last 2048 bytes. |
| RiscvRun.StubRuns | src/elf_link.c:775-793 | Running stub i goes to the address held in one slot, `ra` and all registers but `t0` as they were; it is slot i if and only if that is in reach. |
| RiscvRun.CallGoesThrough | src/elf_link.c:600-793 | Five instructions from a call of external i, with both displacements in reach, control is where slot i says, with the return address of the call in `ra`. |
| RiscvRun.PatchStubs | src/elf_link.c:775-793 | The patching loop turns every stub of the table into those words and changes nothing behind the table. |
| ElfBytes.PlacedAt | src/elf_obj.c:38-40 | Two-phase layout: every part is found at the offset computed from sizes alone. |
| ElfBytes.FieldReads | src/elf_obj.c:34-36 | A little-endian field that fits reads back from its place in a record. |
| ElfObj.RankIsBijection | src/elf_obj.c:193-211 | Symbol renumbering is a bijection with locals first, globals from `sh_info` on. |
| ElfObj.ContentPlaced | src/elf_obj.c:155-406 | Each section's bytes are at its header's offset. |
| ElfObjWriter.WriteObject | src/elf_obj.c:89-417 | Numbering, layout and emission loops write exactly the specified file. |
| ElfObjWriter.IndexSymbols | src/elf_obj.c:193-211 | The two passes fill the remap with that renumbering. |
| ElfObjWriter.LayOut | src/elf_obj.c:155-231 | The running offset computes every section's offset. |
| ElfRead.Read | src/elf_read.c:82-282 | The reader's passes compute the specified result or error on arbitrary bytes. |
| ElfRoundTrip.RoundTrip | src/elf_read.c:82-282 | Reading a written object gives back its sections, permuted symbols and relocations, or refuses it exactly when a relocation type is unknown for the machine. |
| ElfRoundTrip.RelocationsKeepTheirSymbol | src/elf_read.c:173-212 | Each relocation read back names the symbol the assembler meant. |
| ElfRoundTrip.RelocationsMean | src/elf_obj.c:43-291 | The relocations written, by the numbers of the processor supplements: on x86-64 a displacement counts from the end of its field, on RISC-V the addend is the assembler's, on AArch64 there is none; the reader gives the same addend back. |
| ElfConforms.FileHeader | src/elf_obj.c:235-247 | Magic, class, byte order, versions, type, machine, flags and header sizes of a written object, field by field, with a null section first. |
| ElfConforms.ContentSections | src/elf_obj.c:356-414 | Found by name in a written object: .text executable, .data and .bss writable, .rodata neither, each present exactly when the unit has it, with its type, size, alignment and bytes. |
| ElfConforms.TableSections | src/elf_obj.c:379-406 | The relocation sections are linked to the symbol table and to the section they are for, the symbol table to its names, with the number of its first global symbol; each has its row size and bytes. |
| ElfConforms.SymbolsSorted | src/elf_obj.c:310-337 | In the symbol table so found, the symbols before that number are marked local and the others global. |
| ElfRoundTrip.DenseIsFixedIff | src/elf_link.c:172-184 | The reader's section numbers are the linker's if and only if no lower-numbered section is missing. |
| ElfLink.ExternalsNeeded | src/elf_link.c:138-166 | Externals are exactly the names some object refers to globally, without a section and not as common, and no object defines globally, each once. |
| ElfLink.CollectExternals | src/elf_link.c:138-166 | The nested loops collect them in order. |
| ElfLink.FindSymbol | src/elf_link.c:113-127 | Finds the first global definition of a name, if there is one. |
| ElfLink.LayoutIsEmission | src/elf_link.c:292-511 | For any objects and externals every precomputed offset is the buffer length where its part is written. |
| ElfLinker.Link | src/elf_link.c:186-511 | Fails exactly on an undefined entry symbol; otherwise emits the specified executable with that entry address. |
| ElfImage.Segments | src/elf_link.c:373-387 | The parsed program headers: two load segments, in order, disjoint, congruent modulo the page, covering the file. |
| ElfImage.FileIsLoaded | src/elf_link.c:342-353 | Every byte of the file is loaded at 0x400000 plus its offset. |
| ElfImage.LoadedOnce | src/elf_link.c:378-383 | No address is loaded with two different bytes. |
| ElfImage.SymbolsLoad | src/elf_link.c:172-184 | Loading puts every byte of every object's sections at the address relocation uses for it, zeros for .bss. |
| ElfImage.SymbolsApart | src/elf_link.c:172-184 | Different bytes of the inputs never share an address. |
| ElfImage.SlotResolves | src/elf_link.c:469-495 | The dynamic loader finds GOT slot i's relocation at its address, naming external i. |
| ElfImage.DynamicReads | src/elf_link.c:497-511 | The dynamic entries read back from the file. |
| ElfImage.DynamicPoints | src/elf_link.c:497-511 | Their table addresses are where those tables are loaded. |
| ElfLoader.HeadersTell | src/elf_link.c:373-390 | Found by type in the file: the header table, the interpreter's path and the dynamic section, each with the place in the file and the address of exactly its bytes, and a stack that is not executable; no segment is both writable and executable. |
| ElfLoader.InterpreterSpelled | src/elf_link.c:196-201 | The bytes at the interpreter's address are the path for the machine in the file header, with its NUL. |
| ElfLoader.EntryLoads | src/elf_link.c:357-367 | At the entry address in the file header, loading puts the byte of .text that the entry symbol marks; 0 when its object has no .text. |
| ElfLoader.LoaderTold | src/elf_link.c:497-511 | Walking the dynamic section to its null entry, the loader finds under each tag the address of the table it is for, or its size, row size or flag. |
| ElfLoader.LoaderReads | src/elf_link.c:469-511 | The string table at its address has the length found, ends every name inside it, and names one library, "libc.so.6"; the slots of the GOT are zero. |
| ElfLoader.LoaderBinds | src/elf_link.c:469-511 | From the file alone, the relocations the loader performs are one for each slot of the GOT, none missing and none extra, each of the machine's kind and for the slot's own external by name. |
| ElfPlt.X86StubJumps | src/elf_link.c:403-423 | On x86-64 stub i in the file jumps through slot i of the table the loader fills, if and only if the slot is less than 2 GiB away. |
| ElfPlt.RiscvTemplate | src/elf_link.c:424-437 | On RISC-V every stub in the file is what its patches expect. |
| ElfPlt.A64StubRuns | src/elf_link.c:794-829 | On AArch64 running a patched stub goes where one slot says and changes only x16 and x17; it is slot i if and only if its page is less than 2^20 pages away. |
| ElfPlt.PatchA64Stubs | src/elf_link.c:794-829 | The patching loop writes those words into every stub and changes nothing behind the table. |
| Arena.Arena.Alloc | src/arena.c:39-53 | A 16-aligned region apart from all live ones, in a new block exactly when the newest is full; a new block has 65536 bytes or, if that is too few, just enough. |
| Arena.Arena.Realloc | src/arena.c:55-70 | Growing keeps the old bytes and every other allocation, and is in place if and only if the allocation is the newest and there is room behind it; a null pointer gets a new region apart from all live ones. |
| Arena.Arena.Reset | src/arena.c:72-84 | Keeps the newest block only, empty. |
| Arena.BumpKeeps | src/arena.c:50-52 | A bumped region is apart from every live region. |
| Arena.GrowKeeps | src/arena.c:60-66 | Growing the newest region in place keeps all regions apart. |
| RuntimeAlloc.BumpArena.Alloc | include/runtime_prelude.h:49 | When arena allocation succeeds, and where; the pointer has the alignment asked for if and only if the buffer has it. |
| RuntimeAlloc.Pool.Alloc | include/runtime_prelude.h:49 | The first free block, null exactly when the request does not fit or none is free; apart from every block in use and, in an aligned buffer, aligned as asked. |
| RuntimeAlloc.Pool.Dealloc | include/runtime_prelude.h:50 | Succeeds exactly for the start of a block in use, so a second free fails; one more block is free. |
| RuntimeAlloc.AlignedIff | include/runtime_prelude.h:49 | The pointer has the alignment asked for if and only if the buffer has it. |
| RuntimeAlloc.OverAlignedRequest | include/runtime_prelude.h:49 | A caller asks the arena for 64-byte alignment and receives a misaligned pointer. |

## Left out

- OwnershipTheorems.EmittedProgramRefines: expressions are identifiers, literals, calls, conditionals and compounds, statements those of the module's syntax; range-loop binders, aggregates, `?` and `??` are not modelled, hidden bindings are numbered within their statement and not over the whole program, and the emitter's own names (`tiq_old`, `tiq_exit_code`, `tiq_fn_ret`, `tiq_tmp…`) are assumed unused.
- OwnershipSim.SimBlock: a block is printed with its last statement before its deferred ones and those in reverse, and its names are taken to make sense in that order; where they do not, as when the last statement uses a deferred binding, the printed C does not compile.
- OwnershipTheorems.MutableOwnersHeldOnce: immutable owners have no escape test in the source, so nothing is claimed about copies of them.
- OwnershipEmitter.EmitContext.EmitStatement: indexed and compound assignment and range loops are not printed.
- OwnershipTheorems.FreedExactlyOnce: the condition on the text is sufficient, not necessary; the exact one is on what a run executes.
- OwnershipTheorems.SettledNeverStrays: likewise.
- OwnershipHoist.TemporariesForgotten: a fresh-result function is taken to be able to keep what it is given, and a temporary handed to one is not covered.
- The heap never reuses an address and allocation never fails.
- IrLowerCorrect.LowerRuns: integers and booleans with wrap-around addition, subtraction, multiplication, negation and comparisons; not division, shifts, bitwise operators, floats, strings, calls, one-armed conditionals or loops, nor the limit of 256 variables.
- WasmLower.CompiledFunctionRuns: for value-returning functions with at most 4096 parameters, since the source fills its table for every parameter unchecked; module sections, imports and data are not modelled.
- WasmWriter.WriteFuncBody: value-returning functions; the tail block of a void function, which the source closes with a return, is not modelled.
- OwnershipFunctions.EmittedFunctionRefines: a body ends in an expression, a binding, an assignment, `proc_exit` or nothing; a conditional or a block as the last statement is not modelled.
- StreamTwo.StreamRuns: seeds and rule without conditionals; n equal to the largest i64 is excluded because the loop counter wraps.
- StreamSource.NamesLowerIff: generators with conditionals, seen by the other backend's `NamesWorkIff`, are not covered.
- StreamNames.EmittedRuns: signed overflow, undefined in C, is taken as wrap-around; the rule's operators are those of the lowered subset.
- TiqMap.TiqMap.Set: bucket counts are unbounded integers; key duplication and allocator release are not modelled.
- ChannelProtocol.StepKeeps: a mutex-protected section is one step; `chan_len`, `chan_cap` and `chan_free` are left out.
- JsonRoundTrip.ValueEnds: `json_view`, `json_set`, `json_del` and `json_has` are left out.
- RiscvLi.LiExact: `n + 0x800` is unbounded, and register x0 is excluded.
- RiscvRun.ExternalAccessed: float registers have no values in this machine, only the addresses used.
- RiscvLink.ApplyRelocs: the relocations of data sections are not applied by the source at these offsets and not modelled; nor are the x86-64 and aarch64 relocations of text.
- ElfPlt.A64StubRuns: addresses are below 2^63.
- OwnershipMeaning.ComputesExpression: where an argument that stays in place has effects of its own, as a call of an ordinary function has, hidden bindings are computed before it; `ChosenIsExpression` is about those too.
- JsonEscapes.ReadsIff: `\u` escapes are copied as written and not modelled further.
- Fields of instruction words are added where the source ors them; they do not overlap.
- ElfObjWriter.WriteObject: the source writes one `if` per optional section where the model loops over the list of section kinds; .rodata relocations are dropped, as in the source.
- ElfRead.Read: offsets are unbounded integers, and a string that runs off the end of the file stops there.
- ElfRoundTrip.RoundTrip: sizes and values fit their fields.
- ElfLinker.Link: the executable before relocation; relocation is `RiscvLink`.
- Buffers that double their storage are modelled once, in `Leb128.Buf`; the ELF buffers are growing sequences.
- Lexing, parsing, semantic analysis, the native and QBE backends, the Mach-O and PE writers, operand parsing, diagnostics and all operating-system builtins.

# Lua 5.1.5 and its Sudoku rules: a verified model

`src/sudoku.lua` is a Sudoku rule engine; it comes with the C sources of Lua 5.1.5, which runs it. This
project models the parts of both where correctness rests on invariants that no single function shows, and
proves what those parts are for.

- **Collector** (`Gc*.dfy`, `src/lgc.c`, `src/lgc.h`). Colours, gray lists, sweep pointer and phase are a
  state; `GcCollect` gives the collector's steps and `GcMutate` the program's. `GcInvariant` is the invariant
  of the five phases, `GcEffects` says what the program's steps do, `GcRuns` derives safety over whole runs
  from the initial state, `GcExact` says what a full collection keeps, clears and frees, and `GcMachine` has
  the loops that update `global_State` in place.
- **Tables** (`Table*.dfy`, `LuaTable.dfy`, `src/ltable.c`). A class with an array part and a node vector
  whose chains use Brent's variation; it refines a finite map through every insertion and rehash.
- **Code generator** (`Code*.dfy`, `src/lcode.c`, `subexpr` of `src/lparser.c`, `src/lvm.c`). Unfinished code
  is given a meaning (`CodeRun`: where a run stops, and with which registers), expression descriptors too
  (`CodeExp`), and every operation is proved to keep the meaning, up to whole expressions (`CodeParse`).
- **Sudoku** (`Sudoku*.dfy`, `src/sudoku.lua`), for boards of any side: a class whose candidates are removed
  in place, and what rules, propagation and the drivers preserve.
- **Upvalues** (`Upvalues.dfy`, `UpvalueRuns.dfy`, `src/lfunc.c`), **patterns** (`Pattern*.dfy`,
  `src/lstrlib.c`), **precompiled chunks** (`Chunk*.dfy`, `src/ldump.c`, `src/lundump.c`, `src/lzio.c`),
  **quicksort** (`Quicksort.dfy`, `src/ltablib.c`) and **quoting** (`Quoting.dfy`, `src/lstrlib.c`,
  `src/llex.c`).

Code that works step by step in the source is a method with the same loops here, proved against functions on
values; the theorems are about those functions. What a function decides for others (priorities, classes of
characters, item positions, byte formats, the meaning of operators) is stated a second time in plain terms and
proved to agree: `CodeLayers`, `CodeLaws`, `PatternItems`, `SudokuMeaning`, `ChunkBytes`, `GcEffects`. `Basics`
has what several parts share. `dafny verify dfyconfig.toml` checks everything.

Inputs from outside are parameters: the order function of `table.sort`, arithmetic on numbers, the main
position of a key, the verdict of the bytecode checker, the blocks that a reader delivers, and what the
program does between collector steps.

Where the code does not do what one might expect, the model follows the code:

- Undumping a stripped dump gives the same function back only if there was nothing to strip and every source is
  the name that loading supplies (`ChunkProto.StripTrip`). Without stripping, a function without a source would
  come back with another one (`ChunkProto.RoundTrip`, `ChunkLoaded.NullSource`); but the compiler
  (`src/lparser.c:345`), `src/luac.c:128` and the loader (`src/lundump.c:167`) always set one, and whatever was
  loaded survives every further dump (`ChunkLoaded.LoadedAgain`).
- `resize` itself can leave integer keys of the hash part hidden when it raises "table overflow"
  (`LuaTable.Table.Overflowed`), but with the sizes that `rehash` asks for it never does: a store that overflows
  changes no value (`LuaTable.Table.Rehash`, `LuaTable.StoreAll`).
- After "Board inconsistent" the half-propagated board stays in use, with determined cells whose digit is still
  possible elsewhere. The rules are proved for such boards too; a cell of it has no candidate left, so no
  later command makes it look solved (`SudokuSession.Session`).
- A string in a weak table survives a collection like a strong reference, even as the key of an entry that
  is cleared because of its value (`GcExact.FullGcExact`).

## Model

| member | source | states |
|---|---|---|
| GcRuns.NextInv | src/lgc.c:556-607 | A collector step, either extra move of luaC_fullgc or a program step taken in a state that satisfies the invariant leads to a state that satisfies it. |
| GcRuns.NextKeeps | src/lgc.c:556-607 | No single step of the machine frees an object that is reachable when it is taken. |
| GcRuns.RunInv | src/lgc.c:556-607 | Every state of every run from the initial state satisfies the invariant; a run assumes nothing of its states but that each is what the step makes of the one before. |
| GcRuns.RunSafe | src/lgc.c:556-607 | Safety: in every state of every run, whatever the interleaving, everything reachable from the roots (also through weak references) is allocated, and the next step does not free it. |
| GcRuns.RunAllocates | src/lvm.c:461-465 | In every run, what a step allocates is afterwards as asked for and reachable, so that RunSafe is about it. |
| GcRuns.RunColors | src/lgc.h:69-97 | In every state of every run no black object points to a white one while marking, and nothing reachable has the dead white. |
| GcSafety.MutateInv | src/lgc.c:661-709 | Allocation, interning, stack writes, barriered stores to tables, closures, userdata and upvalues, new closures, luaF_close, table rehashes and string-table resizes keep the invariant in all five phases. |
| GcSafety.ProgramKeeps | src/lfunc.c:96-112 | No program step frees a live object; luaF_close frees only dead upvalues. |
| GcSafety.CollectorKeeps | src/lgc.c:407-428 | No collector step frees a live object. |
| GcSafety.CaptureInv | src/lvm.c:723-742 | Capturing any sequence of upvalues for a new closure keeps the invariant and yields live upvalues. |
| GcEffects.AllocEffect | src/lvm.c:461-465 | A new object is the one asked for, is on top of the running thread's stack and reachable, and every other object is the same. |
| GcEffects.InternEffect | src/lstring.c:75-93 | An interned string, dead or not, is live, on top of the stack and reachable, and every other object is the same. |
| GcEffects.NewClosureEffect | src/lvm.c:723-742 | A new closure has the environment, prototype and upvalues asked for, the latter shared or open on their slots; it is on top of the stack and reachable, and every other object is the same. |
| GcEffects.WriteStackEffect | src/lvm.c:406-431 | The thread's stack has the values written, and nothing else changes. |
| GcEffects.SetGlobalsEffect | src/lgc.c:661-671 | The thread has the globals table, and nothing else changes. |
| GcEffects.SetEntryEffect | src/lvm.c:134-160 | The table has the entry, its other entries and fields and all other objects are the same, whatever the barriers do. |
| GcEffects.RelayEffect | src/ltable.c:297-324 | The table has the new entry vector, and nothing else changes. |
| GcEffects.SetMetaEffect | src/lgc.c:158-196 | The table has the metatable and the weak flags, and nothing else changes. |
| GcEffects.SetFieldEffect | src/lgc.c:661-671 | The field of a userdata, closure, prototype or closed upvalue has the value, and nothing else changes. |
| GcEffects.SetUpvalEffect | src/lvm.c:451-456 | A write through an upvalue is read back through it, and only the upvalue or the one slot it designates changes. |
| GcEffects.CloseStepEffect | src/lfunc.c:96-112 | luaF_close leaves no upvalue of the thread open at or above the level, keeps those below it and of other threads, keeps all values, and frees only dead upvalues. |
| GcEffects.RootEffects | src/lgc.c:493-512 | Changes of basic metatables, of the running thread, of fixed strings and of the string table's chains are those asked for and change no object. |
| GcEffects.AlwaysEnabled | src/lgc.c:685-691 | In every state the program may allocate, store what it reaches into tables that it reaches, and overwrite its stack. |
| GcProgram.StoreBack | src/lgc.c:674-682 | Any store of live values into a live table followed by luaC_barrierback keeps the invariant. |
| GcProgram.SetEntryInv | src/lvm.c:134-160 | A store to an entry, with the key's barrier for a new or re-used entry and the value's barrier, keeps the invariant. |
| GcProgram.RelayInv | src/ltable.c:297-324 | Rebuilding a table's entry vector (rehash, move of a colliding node), with the barriers for the re-inserted keys, keeps the invariant. |
| GcProgram.StoreForward | src/lgc.c:661-671 | A store into any object other than a table followed by luaC_barrierf keeps the invariant: while marking the value is marked, otherwise the object becomes white. |
| GcProgram.PutStackInv | src/lgc.h:75-77 | Stack stores need no barrier, because threads and open upvalues are never black. |
| GcAlloc.AddInv | src/lgc.c:685-691 | Linking a new object in the current white keeps the invariant, in every phase and wherever the sweep pointer is. |
| GcAlloc.ReviveInv | src/lstring.c:75-93 | Resurrecting a dead string or upvalue by changewhite keeps the invariant. |
| GcAlloc.FindUpvalInv | src/lfunc.c:53-79 | luaF_findupval keeps the invariant and returns a live upvalue that is open on the wanted slot. |
| GcClose.CloseUpvalsInv | src/lfunc.c:96-112 | luaF_close keeps the invariant in every phase and at every level, including luaC_linkupval's recolouring and barrier. |
| GcClose.LinkColorTricolor | src/lgc.c:694-709 | luaC_linkupval's barrier restores the tri-colour invariant for the upvalue it blackened. |
| GcMark.MarkValExtends | src/lgc.c:69-112 | reallymarkobject marks its object, recolours only white objects, and puts exactly the newly gray traversable ones on the gray list, each once. |
| GcTricolor.PropagateMarkTricolor | src/lgc.c:277-320 | propagatemark keeps the tri-colour invariant and the order of the three gray lists. |
| GcTricolor.TraversedOk | src/lgc.c:158-270 | After an object is traversed all it refers to strongly is marked, and a black table has no entry, not even an empty one, with a white key. |
| GcAtomic.PropagateAllOk | src/lgc.c:323-327 | propagateall ends with an empty gray list and undoes nothing that was settled. |
| GcAtomic.MarkRestOk | src/lgc.c:525-545 | After atomic's three rounds every gray object is settled and the running thread and the basic metatables are marked. |
| GcAtomic.ClearedClosed | src/lgc.c:351-375 | Once the weak tables are cleared the marked objects are closed under references of every kind. |
| GcInvariant.MarkRootInv | src/lgc.c:501-512 | markroot may start a cycle whenever every object has the current white. |
| GcInvariant.AtomicMarks | src/lgc.c:525-553 | Just before atomic flips the white, the marks are closed under references and no open upvalue is black. |
| GcInvariant.AtomicInv | src/lgc.c:525-553 | atomic leads from the mark phase to the string sweep and keeps the invariant. |
| GcInvariant.ReachableLive | src/lgc.h:86-88 | Under the invariant everything reachable is allocated and not dead. |
| GcSweep.SingleStepInv | src/lgc.c:556-607 | singlestep keeps the invariant in each of the five phases. |
| GcSweep.SweepStringsInv | src/lgc.c:567-577 | Sweeping a chain of the string table keeps the invariant. |
| GcSweep.SweepOneInv | src/lgc.c:407-428 | One round of sweeplist, with the nested sweep of a thread's open upvalues and the closing of a freed thread's upvalues, keeps the invariant. |
| GcFrame.SweepStepFrame | src/lgc.c:407-428 | A sweep step frees only dead objects that are not fixed and changes no value that the program can see. |
| GcStrong.RestClosed | src/lgc.c:525-545 | When marking is over, whatever a marked object refers to strongly is marked. |
| GcWeak.ClearEntriesExact | src/lgc.c:337-375 | The loops of cleartable over one table clear exactly the entries whose key or value is an unmarked object other than a string, and mark exactly the strings of entries whose key stays. |
| GcWeak.ClearTablesExact | src/lgc.c:351-375 | cleartable over all listed tables does that for each of them, independently of their order. |
| GcExact.RestMarked | src/lgc.c:525-545 | In a cycle that the program does not interrupt, after atomic's rounds exactly the objects strongly reachable at its start are marked, and exactly the reachable weak tables are listed. |
| GcExact.FullGcExact | src/lgc.c:635-658 | luaC_fullgc, from any of the five phases and for any heap: what is left is exactly what is strongly reachable at the call, what is fixed, and the strings that reachable weak tables hold; exactly the weak entries of other objects are cleared, all other contents are unchanged, and every survivor is in the current white. |
| GcExact.FullGcPlain | src/lgc.c:635-658 | Without weak tables luaC_fullgc frees exactly the objects that are unreachable at the call and not fixed. |
| GcFull.StepProgress | src/lgc.c:556-607 | Every step outside GCSpause decreases a measure (the phase, then what is left to mark or sweep), so the loops of luaC_fullgc end. |
| GcFull.StartSweepInv | src/lgc.c:635-645 | Abandoning a half-done mark phase without flipping the white keeps the invariant, and nothing is dead in the sweep that follows. |
| GcMachine.GlobalState.Step | src/lgc.c:556-607 | The in-place collector step computes the specified state, keeps the invariant and frees nothing reachable. |
| GcMachine.GlobalState.MarkValue | src/lgc.c:69-112 | The in-place marking of a value sets colours and gray list to those of the specification. |
| GcMachine.GlobalState.PropagateMarkStep | src/lgc.c:277-320 | The in-place propagatemark is the specified one. |
| GcMachine.GlobalState.FinishMark | src/lgc.c:525-553 | The in-place atomic, with its loops over uvhead and the gray lists, is the specified one. |
| GcMachine.GlobalState.ClearWeak | src/lgc.c:351-375 | The in-place cleartable is the specified one. |
| GcMachine.GlobalState.SweepObjects | src/lgc.c:407-428 | The in-place sweeplist over at most n objects is the specified one. |
| GcMachine.GlobalState.SweepWholeList | src/lgc.c:407-428 | sweepwholelist over a chain frees and whitens as specified and returns the chain that remains. |
| GcMachine.GlobalState.CloseFrom | src/lfunc.c:96-112 | The in-place luaF_close is the specified one. |
| GcMachine.GlobalState.LinkClosed | src/lgc.c:694-709 | The in-place luaC_linkupval is the specified one. |
| GcMachine.GlobalState.BarrierF | src/lgc.c:661-671 | The in-place luaC_barrierf is the specified one. |
| GcMachine.GlobalState.BarrierT | src/lgc.c:674-682 | The in-place luaC_barrierback behind its macro is the specified one. |
| GcMachine.GlobalState.FullCollection | src/lgc.c:635-658 | The loops of luaC_fullgc leave exactly the objects that FullGcExact names and end in GCSpause. |
| CodeMachine.Execute | src/lvm.c:377-585 | For code whose jumps all go forward the main loop, with the tests fetching the jump behind them, computes the outcome of Exec. |
| CodeLists.Concat | src/lcode.c:185-196 | luaK_concat joins two disjoint lists; only offsets of jumps of the first change. |
| CodeLists.NeedValue | src/lcode.c:122-128 | True exactly if some jump of the list delivers no value. |
| CodeLists.PatchListAux | src/lcode.c:150-160 | Exactly the jumps of the list get a target (vtarget with a value, dtarget without), exactly the tests in front of them are retargeted, and no other instruction changes. |
| CodeLists.RemoveValues | src/lcode.c:144-147 | Exactly the tests that control jumps of the list stop delivering values. |
| CodeGen.FuncState.Code | src/lcode.c:789-801 | The jumps that wait for this position, and no others, get it as their target, and the instruction is appended. |
| CodeGen.FuncState.Jump | src/lcode.c:59-66 | The new jump is appended, and those that waited for this position join its list instead of being resolved. |
| CodeGen.FuncState.PatchList | src/lcode.c:169-176 | A list is resolved to an earlier position, or joins the jumps to here. |
| CodeGen.FuncState.PatchToHere | src/lcode.c:179-182 | A list joins the jumps to here, and here becomes a jump target. |
| CodeGen.FuncState.AddK | src/lcode.c:229-247 | The constant's index; the table keeps all earlier constants and grows by one at most. |
| CodePatch.RunOps | src/lcode.c:59-196 | After any sequence of emissions, luaK_jump, luaK_concat, luaK_patchlist and luaK_patchtohere, all lists are free of cycles and disjoint, every jump is on one list or resolved, and the code is what was emitted except for those targets and the tests in front of resolved jumps. |
| CodePatch.SettledTracks | src/lcode.c:150-160 | Resolving a list leaves all other lists and all other jumps as they were. |
| CodeRun.ExecAppend | src/lcode.c:789-801 | Appended code runs from where the old code ended, with the same registers. |
| CodeRun.ExecPatch | src/lcode.c:150-160 | After patching, a run goes on at the target, with the delivered value in its register, exactly where it used to stop at a jump of the list. |
| CodeState.DischargeRun | src/lcode.c:163-166 | dischargejpc changes no run. |
| CodeState.HoldRun | src/lcode.c:59-66 | After luaK_jump a run that reached the end stops at the new jump or at one that waited. |
| CodeState.FinishRun | src/lcode.c:390-411 | When exp2reg patches both lists, every exit arrives at the end with its value in the register. |
| CodeEmit.Discharge2Reg | src/lcode.c:343-379 | The descriptor's value is in the register, for every kind of descriptor and every run; registers below are untouched. |
| CodeEmit.Exp2Reg | src/lcode.c:390-411 | The value of the expression, whichever exit it is computed by, is in the register; all lists are resolved. |
| CodeEmit.Exp2NextReg | src/lcode.c:414-419 | The value is in the first free register, which is then reserved. |
| CodeEmit.Exp2AnyReg | src/lcode.c:422-433 | The value is in a register, its own if it has one and no exits that need another. |
| CodeEmit.Exp2RK | src/lcode.c:444-469 | The operand, a register or a constant index, yields the value of the expression. |
| CodeBranch.JumpOnCond | src/lcode.c:524-536 | The new jump is taken exactly when the value is on the wanted side; an OP_NOT is removed rather than emitted. |
| CodeBranch.GoIfTrue | src/lcode.c:539-560 | Control goes on exactly if the expression is true; otherwise it leaves by the returned list with the value. |
| CodeBranch.GoIfFalse | src/lcode.c:563-583 | The same for false. |
| CodeBranch.CodeNot | src/lcode.c:586-618 | The descriptor means the negation: lists change places, and their jumps stop delivering values. |
| CodeArith.ArithComputes | src/lcode.c:653-670 | The emitted instruction computes the arithmetic value of the operands. |
| CodeArith.CompareComputes | src/lcode.c:673-686 | The comparison and its jump compute the relation, with > and >= as < and <= of exchanged operands. |
| CodeArith.FoldsWhen | src/lcode.c:627-650 | Exactly operations on two numerals without jumps are folded, except division and modulo by zero. |
| CodeArith.FoldComputes | src/lcode.c:627-650 | A folded constant is the value that direct evaluation gives. |
| CodeOperators.InfixLogic | src/lcode.c:710-734 | luaK_infix for and/or: the second operand runs exactly when it decides the value. |
| CodeOperators.PosfixLogic | src/lcode.c:737-781 | luaK_posfix for and/or: the joined lists and second operand compute the short-circuit value. |
| CodeOperators.PosfixArith | src/lcode.c:737-781 | luaK_posfix for arithmetic, folded or emitted, computes the value and frees the temporary registers. |
| CodeOperators.PosfixCompare | src/lcode.c:737-781 | luaK_posfix for comparisons computes the value. |
| CodeOperators.Prefix | src/lcode.c:689-707 | luaK_prefix computes the negated or inverted value, folding numerals. |
| CodeGrammar.LayersIff | src/lparser.c:810-821 | The two numbers of each operator in the priority table, and UNARY_PRIORITY, yield just the layers of the precedence rules: `or`, `and`, relations, sums, products, unary operators, and `^`, which is right associative. |
| CodeGrammar.ParseExact | src/lparser.c:828-853 | subexpr accepts exactly the token sequences of expressions that follow the layered grammar of operator precedence, from `or` to `^`, and returns that expression. |
| CodeGrammar.OneReading | src/lparser.c:810-819 | The layered grammar leaves every token sequence at most one reading. |
| CodeGrammar.NeedSmall | src/lcode.c:199-212 | An expression needs at most two registers more than its second operands are nested. |
| CodeLaws.LeafLaws | src/lvm.c:407-425 | What constants, local variables and parentheses mean. |
| CodeLaws.ErrorLaws | src/lvm.c:474-508 | Operators fail if an operand does, except for a second operand of `and` and `or` that is not needed. |
| CodeLaws.ArithmeticLaw | src/lvm.c:474-508 | Arithmetic gives the number for the operands in their order, and an error unless both are numbers. |
| CodeLaws.RelationLaw | src/lvm.c:545-570 | Any values can be equal or not; only numbers are ordered, and anything else is an error. |
| CodeLaws.LogicLaw | src/lvm.c:571-585 | Only nil and false are false; `not` gives a boolean, `and` and `or` one of their operands. |
| CodeParse.Subexpr | src/lparser.c:828-853 | subexpr, driving the code generator, recognises what Parse does and leaves code and a descriptor that compute the expression; it gives up only if registers run out. |
| CodeParse.CompileExpression | src/lparser.c:828-853 | The whole compilation: for every call-free expression, read by the layered grammar, the code leaves its value in the target register in every run with any arguments, and changes no local variable; it fails only on text that is no expression or if Need exceeds the registers. |
| CodeParse.CompileAndRun | src/lvm.c:406-585 | Compiling and then running gives the result of direct evaluation, or the same run-time error, and keeps the local variables; every expression within the registers compiles. |
| LuaTable.Table.Get | src/ltable.c:469-491 | luaH_get returns what the map holds. |
| LuaTable.Table.Set | src/ltable.c:494-505 | luaH_set returns the key's slot without changing the contents; it fails ("table overflow") exactly if the key has no place and all keys together do not fit, and then the table is intact. |
| LuaTable.Table.NewKey | src/ltable.c:399-429 | newkey finds a node by Brent's variation and keeps all chains and contents, or rehashes once; it fails exactly as luaH_set does. |
| LuaTable.Table.GetFreePos | src/ltable.c:382-388 | getfreepos returns a free node unless none is left, because all free nodes lie below lastfree. |
| LuaTable.Table.Resize | src/ltable.c:297-324 | For any sizes: every entry is re-inserted, the contents do not change, and no re-insertion needs a second rehash; on overflow the array part may have grown, keys in its new range read as nil and all others have their values. |
| LuaTable.Table.ReInsert | src/ltable.c:312-320 | A re-inserted entry finds room, and the contents grow by just that entry. |
| LuaTable.Table.Rehash | src/ltable.c:333-349 | The contents are the same in any case; it overflows exactly if an array part of the optimal size leaves more keys than the largest hash part has nodes; otherwise the array part has that size and there is room for the new key. |
| LuaTable.Table.Put | src/ltable.c:494-505 | A store is a map update, or changes nothing if it overflows, exactly as luaH_set does; a nil key is an error that changes nothing. |
| LuaTable.StoreAll | src/ltable.c:494-529 | After any sequence of stores, nil-assignments and the rehashes they cause, some of which may overflow, the table is intact and holds the map that the stores that took place give; a store fails only if the keys do not fit. |
| TableParts.AllNodesUsed | src/ltable.c:297-324 | If as many keys lie outside 1..n as the hash part has nodes, it has exactly these keys, so an array part grown to n hides none. |
| TableParts.LastStored | src/ltable.c:469-491 | In that map a key has the last value stored under it. |
| LuaTable.Table.Next | src/ltable.c:162-179 | The entry with the smallest traversal index behind the key's; an error exactly for keys that are not in the table. |
| LuaTable.Table.Traverse | src/ltable.c:162-179 | Iterating from nil visits every entry exactly once, with its value, although entries visited already may be assigned to, in particular nil, on the way. |
| LuaTable.Table.GetN | src/ltable.c:560-576 | luaH_getn returns a border, by either binary search, doubling or the linear search. |
| LuaTable.Table.UnboundSearch | src/ltable.c:532-553 | unbound_search returns a border, also when doubling overflows. |
| TableChain.FindNode | src/ltable.c:469-491 | The chain walk finds the key's node exactly if there is one. |
| TableChain.PlaceBehind | src/ltable.c:418-423 | A key chained behind its main position keeps all chains acyclic and disjoint. |
| TableChain.PlaceMoved | src/ltable.c:409-417 | Moving the colliding node to the free one keeps them, and the new key gets its main position. |
| TableSizes.Log2 | src/lobject.c:54-69 | luaO_log2 is the integer part of the base-2 logarithm. |
| TableSizes.ComputeSizes | src/ltable.c:189-208 | From the slice counts alone: the largest power of two n with more than n/2 of 1..n in use (0 if none) and the exact number of keys in 1..n. |
| TableSizes.BestEarly | src/ltable.c:189-208 | The early exit loses no larger size. |
| TableCount.NumUseArray | src/ltable.c:222-244 | The slice counts of the live array entries. |
| TableCount.NumUseHash | src/ltable.c:247-260 | The slice counts of the integer keys in the hash part, added, and the number of live nodes. |
| TableCount.CountKeys | src/ltable.c:333-343 | All integer keys, the new one included, are counted slice by slice, and all keys in total. |
| TableWalk.EntryAfter | src/ltable.c:162-179 | The first live entry behind a traversal index. |
| SudokuBoard.Board.Determine | src/sudoku.lua:290-380 | On any board: nothing happens unless the digit is possible in an undetermined cell; then exactly the solutions with it there remain, through all propagation and also when "Board inconsistent" is raised, which happens only if none is left. |
| SudokuBoard.Board.PropagateElimination | src/sudoku.lua:385-391 | No solution is lost, candidates only decrease, and the result tells exactly whether they did. |
| SudokuBoard.Board.StrikeHouse | src/sudoku.lua:300-378 | Exactly the digit's candidates outside the exempt cells of the house are removed, and the determined cells are counted. |
| SudokuBoard.Board.Singleton | src/sudoku.lua:87-96 | Exactly the other digits of the cell are removed. |
| SudokuRules.OnePlace | src/sudoku.lua:479-585 | On any board: no solution is lost, also if the board turns out inconsistent; the result is true exactly if candidates were eliminated; if not, the rule has nothing to do here. |
| SudokuRules.Intersect | src/sudoku.lua:605-716 | Exactly the candidates outside the intersection are struck, if the digit is confined to it, and no solution is lost. |
| SudokuRules.TwoPlaces | src/sudoku.lua:721-822 | The hidden-pair rule removes exactly the other digits of the two cells and loses no solution. |
| SudokuRules.SamePair | src/sudoku.lua:824-925 | The naked-pair rule removes exactly the two digits from the other cells and loses no solution. |
| SudokuSound.HiddenSubset | src/sudoku.lua:721-822 | For any k digits with only k places in a house: in no solution those places have other digits. |
| SudokuSound.NakedSubset | src/sudoku.lua:824-925 | For any k cells with only k digits between them: in no solution other cells of the house have these digits. |
| SudokuSolve.PropagateAllSingletons | src/sudoku.lua:454-473 | Ends with at least two candidates in every undetermined cell, and loses no solution. |
| SudokuSolve.Simp | src/sudoku.lua:589-600 | Ends on every board, without losing a solution, where neither propagation nor a one-place rule with any arguments has anything to do. |
| SudokuSolve.AllRules | src/sudoku.lua:928-1000 | One call of all: no solution is lost, and if it eliminates nothing the board is a fixpoint of every rule with every argument. |
| SudokuSolve.Solve | src/sudoku.lua:1676-1684 | On every board solve ends with the same solutions as at the start; on normal exit no rule with any arguments can eliminate anything. |
| SudokuPuzzle.Load | src/sudoku.lua:410-434 | Four nested loops read the items row by row; the board is compatible with exactly the valid grids that agree with the givens, the item at ((r1-1)n+r2-1)n²+(c1-1)n+c2-1 being that of cell (r1, c1, r2, c2); an error means there are none. |
| SudokuPuzzle.SolvedGrid | src/sudoku.lua:1676-1684 | One candidate in every cell, all determined: they form a valid grid exactly if no determined value occurs again in a house, and no other grid is a solution. |
| SudokuPuzzle.LoadAndSolve | src/sudoku.lua:1676-1684 | Loading and solving: inconsistent means no grid agrees with the givens; one candidate per cell means that they are the unique valid grid that does. |
| SudokuPuzzle.StripEach | src/sudoku.lua:395-397 | Stripping keeps dots and the digits 1 to 9 in their order and drops every other character. |
| SudokuPuzzle.ReadAndSolve | src/sudoku.lua:395-434 | The same for a text, whose dots and digits must be 81 and are the nine rows from the top, each from left to right; it is solved exactly if the result is the only valid grid with these digits. |
| SudokuMeaning.GridMeaning | src/sudoku.lua:157-176 | In plain rows and columns of the board: a grid is valid if every cell has a digit and no row, column or square has one twice. |
| SudokuMeaning.RowMeaning | src/sudoku.lua:438-446 | A row number means the cells of that row of the board. |
| SudokuMeaning.ColumnMeaning | src/sudoku.lua:438-446 | A column number means the cells of that column of the board. |
| SudokuMeaning.SquareMeaning | src/sudoku.lua:438-446 | A row and a column number mean the cells of the square that has their cell. |
| SudokuSession.Perform | src/sudoku.lua:1427-1471 | Any command on any board does just what its rule is about, loses no solution, tells whether candidates were eliminated, and keeps a board clean or with a cell without candidates. |
| SudokuSession.Session | src/sudoku.lua:1427-1471 | After loading and any commands, some of which may raise the error, the board is compatible with exactly the grids that agree with the givens; with one candidate in every cell and none undetermined, these form the only such grid. |
| Upvalues.Thread.FindUpval | src/lfunc.c:53-79 | The one upvalue of the slot, found or made; the open list stays strictly descending. |
| Upvalues.Thread.Close | src/lfunc.c:96-112 | Exactly the upvalues at or above the level are closed, and they keep their cells and values. |
| Upvalues.Thread.GetUpval | src/lvm.c:427-431 | The value of the cell that the upvalue stands for. |
| Upvalues.Thread.SetUpval | src/lvm.c:451-456 | Only that cell changes. |
| Upvalues.Thread.MakeClosure | src/lvm.c:723-742 | Each captured upvalue is the cell of the local variable or of the enclosing closure's upvalue. |
| Upvalues.Thread.Leave | src/lvm.c:719-722 | Leaving a block closes its variables and gives up their slots; no cell is lost. |
| Upvalues.Thread.CorrectStack | src/ldo.c:126-138 | All open upvalues follow the stack to its new address; no cell changes. |
| UpvalueRuns.Replay | src/lfunc.c:53-112 | In any run of declarations, assignments, new closures, reads and writes by slot or through closures, block exits and stack moves, every read gives the last value written to that variable. |
| PatternState.MatchState.DoMatch | src/lstrlib.c:365-440 | match returns the first of all matches in order of priority; if there is none, the captures are exactly as on entry. |
| PatternState.MatchState.MaxExpand | src/lstrlib.c:301-313 | The first answer among the repetitions, most first; captures undone on failure. |
| PatternState.MatchState.MinExpand | src/lstrlib.c:316-326 | The first answer among the repetitions, fewest first. |
| PatternState.MatchState.StartCapture | src/lstrlib.c:329-340 | The capture is opened, and taken back if the rest does not match. |
| PatternState.MatchState.EndCapture | src/lstrlib.c:343-351 | The last unfinished capture is closed, and reopened if the rest does not match. |
| PatternState.MatchState.Find | src/lstrlib.c:495-535 | The first position from init on where the pattern matches, and its first match there. |
| PatternMatch.AnswersIff | src/lstrlib.c:365-440 | The list of answers has exactly the matches that the declarative semantics derives, which is stated by what items match, not by the functions that decide it. |
| PatternItems.TextEnds | src/lstrlib.c:365-440 | Reading a text or pattern at its end gives a zero byte. |
| PatternItems.ItemHasIff | src/lstrlib.c:268-275 | A single item matches exactly: a dot anything, %x its class or the character itself, [set] what one of its members has, [^set] what none has, any other character itself. |
| PatternItems.ClassIff | src/lstrlib.c:226-242 | The classes a c d l p s u w x z are ranges of character codes, upper-case letters their complements, and any other escaped character is itself. |
| PatternItems.SetIff | src/lstrlib.c:245-265 | A set has exactly the characters of its classes, ranges and single characters, and with ^ exactly the others. |
| PatternItems.SetEndFirst | src/lstrlib.c:209-217 | A set ends at the first ] that is neither its first character nor escaped, and is malformed exactly if there is none. |
| PatternItems.ItemEnd | src/lstrlib.c:202-223 | Where each kind of item ends, and when it is malformed. |
| PatternOrder.Priority | src/lstrlib.c:301-326 | An item with *, + or ? settles for the most, with - for the fewest repetitions with which the rest of the pattern matches, and the match is the first one of the rest from there. |
| PatternOrder.BalanceFirst | src/lstrlib.c:281-298 | %b ends at the first place where as many more closers than openers have come as were open, and fails exactly if there is none. |
| ChunkStream.Stream.Read | src/lzio.c:58-71 | luaZ_read delivers the next n bytes however they are split into blocks, or fails if there are fewer. |
| ChunkStream.LoadFunction | src/lundump.c:161-181 | Loads what the bytes specify, or fails exactly if they are cut short, malformed, nested too deep or refused by the code check. |
| ChunkStream.LoadDebug | src/lundump.c:137-159 | Loads exactly the debug information. |
| ChunkStream.LoadString | src/lundump.c:76-88 | Size 0 is the null string; otherwise the trailing zero is dropped. |
| ChunkStream.Undump | src/lundump.c:195-209 | The header must be this machine's, and the function is loaded from what follows. |
| ChunkStream.DumpFunction | src/ldump.c:129-141 | Appends the function's bytes, nested functions in order with this source as their parent's. |
| ChunkStream.DumpDebug | src/ldump.c:111-127 | Appends lines, local variables and upvalue names, or three zeros if stripping. |
| ChunkStream.DumpConstants | src/ldump.c:80-109 | Appends the constants, each with its type. |
| ChunkStream.DumpString | src/ldump.c:61-74 | Appends a null string as size 0, any other with its trailing zero. |
| ChunkStream.Dump | src/ldump.c:153-164 | Writes the header and the function, exactly the bytes that DumpUndump loads. |
| ChunkStream.DumpUndump | src/lundump.c:195-209 | Undumping a dump, in any blocks and with anything behind it, consumes exactly the dump and yields the function with its missing sources filled in. |
| ChunkProto.ProtoBack | src/lundump.c:161-181 | Loading inverts dumping for every function, at every depth within the limit, stripped or not. |
| ChunkProto.RoundTrip | src/ldump.c:129-141 | Without stripping the same function comes back if and only if it and all functions in it have a source. |
| ChunkProto.StripTrip | src/ldump.c:111-127 | After stripping the same function comes back if and only if it had no debug information and every source is the name that loading supplies. |
| ChunkProto.RestoredSame | src/lundump.c:167-167 | Sources that were left out because they are the enclosing function's are inherited back. |
| ChunkLoaded.LoadedSturdy | src/lundump.c:161-181 | Whatever bytes are loaded, the function is within all limits, accepted throughout, and every function in it has a source. |
| ChunkLoaded.LoadedAgain | src/lundump.c:167-167 | A loaded function comes back unchanged from another dump, under whatever name. |
| ChunkLoaded.NullSource | src/ldump.c:131-131 | A function without a source comes back with the name that loading supplies. |
| ChunkBytes.NumberBytes | src/ldump.c:45-53 | Integers have four bytes, sizes and numbers eight, the least significant first. |
| ChunkBytes.IntRange | src/lundump.c:61-67 | Integers up to INT_MAX are loaded, and those with the sign bit are errors. |
| ChunkBytes.StringBytes | src/ldump.c:61-74 | The bytes of null and other strings. |
| ChunkBytes.ConstantBytes | src/ldump.c:80-104 | The bytes of constants of each type. |
| ChunkBytes.HeaderBytes | src/lundump.c:214-227 | The twelve bytes of the header, followed by the function. |
| ChunkBytes.FunctionBytes | src/ldump.c:129-141 | All bytes of a function with one instruction. |
| ChunkBytes.DepthLimit | src/lundump.c:161-164 | Functions nested 200 deep are loaded, and deeper ones are errors. |
| ChunkFormat.ReadStrBack | src/lundump.c:76-88 | Loading a dumped string gives it back, null and empty told apart. |
| Quicksort.NumbersOrdered | src/ltablib.c:178-191 | The order of numbers, which is used without an order function, is a strict weak order. |
| Quicksort.AuxSort | src/ltablib.c:193-254 | For elements of any type and every order function that is a strict weak order on the elements of the array: it calls no element of the range less than one before it, the range is a permutation of what it was, nothing else is touched, no error is raised, and recursion is at most log2 of the length deep. |
| Quicksort.Partition | src/ltablib.c:222-241 | The loop around the pivot stays in the range and returns the pivot's place. |
| Quicksort.SmallerPart | src/ltablib.c:243-252 | Only the smaller part is sorted by recursion. |
| Quicksort.Sort | src/ltablib.c:256-264 | The whole array is a permutation of the original, and the order function calls no element less than one before it. |
| Quoting.AddQuoted | src/lstrlib.c:696-723 | Writes the quoted form of the string. |
| Quoting.LexState.ReadString | src/llex.c:278-331 | Reads a string literal as specified, or fails on the same input. |
| Quoting.QuoteEach | src/lstrlib.c:696-723 | Between quotes, each character is written by itself: quotes, backslashes and newlines behind a backslash, carriage returns and zeros as \r and \000, all else as it is. |
| Quoting.PlainLaw | src/llex.c:278-331 | Outside of escapes a line break is an error, and any other character is itself. |
| Quoting.EscapeLaw | src/llex.c:290-325 | What each escape that is no number means, line breaks of one and two characters included. |
| Quoting.DecimalLaw | src/llex.c:308-321 | One to three digits behind a backslash are a character code, and an error beyond 255. |
| Quoting.NextBack | src/llex.c:278-331 | One quoted character is read back as itself, whatever follows, digits after a zero byte included. |
| Quoting.ScanBack | src/llex.c:278-331 | Scanning a quoted string gives the string and ends at its closing quote. |
| Quoting.QuoteAndRead | src/llex.c:278-331 | Lexing the output of %q gives back exactly the string, for every string. |

## Left out

- GcSweep.SingleStepInv: the GCSfinalize branch that calls GCTM is not modelled; there are no finalizers, so `tmudata` is always empty and the phase goes straight to GCSpause.
- GcExact.FullGcExact: userdata with `__gc` and their resurrection (`luaC_separateudata`, `markmt` of pending userdata, `GCTM`) are not modelled.
- GcSafety.MutateInv: calls, hooks and the debug interface are no program steps; `lua_setmetatable` on basic types, coroutine switches and string-table resizes are.
- GcRuns.RunSafe: starts from the state `lua_newstate` builds; `luaC_freeall` and memory that cannot be allocated are not modelled.
- The pacing of the collector (`luaC_step`, thresholds, debt and estimates): steps may happen at any time instead.
- `checkSizes` and `checkstacksizes`, which shrink buffers and stacks, and the sizes that `propagatemark` returns.
- Mark bits as a bit field: a colour, the set of fixed objects and the weak flags of a table stand for them.
- CodeParse.CompileExpression: numbers are reals and arithmetic is any function of the operation and its operands, so NaN, minus zero, rounding and the refusal of `constfolding` to fold a NaN are not modelled; that `Need` registers are free is enough for success, but which expressions with a larger `Need` still compile is not stated.
- CodeParse.Subexpr: `enterlevel`, which limits the nesting of expressions to 200, is not modelled.
- CodeLists.PatchListAux: `fixjump`'s limit on jump distances ("control structure too long") is not modelled.
- CodeGen.FuncState.AddK: `addk` looks a constant up in a table, here a search of the constants; the limit on their number, and operands beyond MAXINDEXRK, are not modelled except in `luaK_exp2RK`.
- CodeMachine.Execute: only the instructions that call-free expressions over nil, booleans, numbers and locals need; strings, tables, upvalues, globals, concatenation, length, calls and metamethods are not modelled, and a run-time error is an outcome without a message.
- Statements, assignments and blocks of the compiler, `luaK_storevar`, `luaK_self`, `luaK_indexed`, `luaK_setlist` and line information.
- LuaTable.Table.Put: a NaN key and its error are not modelled; keys are compared by identity (`luaO_rawequalObj`), and which of them are integers is part of the key.
- LuaTable.Table.NewKey: dead keys and the collector's barrier are the collector's part; here the table is alone.
- SudokuSolve.Solve: `Board:hint`, saved boards, help texts and the dispatch of commands are not modelled.
- UpvalueRuns.Replay: upvalues that nobody uses stay, since freeing them is the collector's part.
- PatternState.MatchState.Find: plain searches, `gmatch`, `gsub` and the values pushed for captures are not modelled; character classes are those of the C locale.
- PatternState.MatchState.DoMatch: the limit on recursion of the C stack is not modelled.
- ChunkStream.DumpFunction: errors of the writer are not modelled; a chunk has the byte order and the sizes of one machine.
- ChunkStream.LoadFunction: the bytecode checker `symbexec` is any test of a function; numbers and instructions are their bits.
- Quicksort.AuxSort: an order function that is no strict weak order, and the error it may raise, are not modelled.
- Quoting.LexState.ReadString: long strings, and line numbers of quoted newlines, are not modelled.
- The user interface (`src/gtksudoku.c`, `src/sudokucell.c`, `src/sudokuboard.c`, `src/sudokuedit.c`, `src/showtext.c`, `src/interp.c`), `src/board.c`, `src/bin2c.c`, `src/u2d.c` and the other libraries: plumbing.

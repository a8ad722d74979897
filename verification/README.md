# Verified models of the event server and its embedded Lua

The repository is an event server in C (`src/`) with a vendored JSON library and a vendored Lua 5.2
(`support/lua/src/`). This project models the parts whose correctness is hardest to see from the code and proves
what they are for. `dafny verify dfyconfig.toml` checks everything.

- **Code generator** (`LuaVm`, `LuaExpr`, `LuaJumps`, `LuaSem`, `LuaSteps`, `LuaJoin`, `LuaPatch`, `LuaShape`, `LuaBuilt`,
  `LuaOps`, `LuaResult`, `LuaCodeGen`, `LuaGrammar`, `LuaParser`): the one-pass compiler of expressions against the
  virtual machine. `LuaVm` gives meaning to instructions whose jumps may not have targets yet;
  `LuaSem` says what it means that code emitted so far, with a descriptor and two patch lists, denotes an expression;
  `LuaSteps`, `LuaJoin`, `LuaPatch` and `LuaOps` prove that each manipulation keeps that meaning; `LuaCodeGen` is the
  generator with its in-place code array, and `LuaParser` the precedence-climbing parser that drives it. `LuaGrammar` is
  the independent reading of the priorities, with the precedence list of the manual as a law. `LuaResult` reads the
  invariant off finished code, and `LuaManual` compares the meaning of expressions with the manual.
- **Collector** (`Gc*.dfy`): `GcHeap` defines objects, colours and reachability; `GcMark`, `GcSweep`, `GcClose` and
  `GcMutate` hold the lemmas for marking, sweeping, closing upvalues and the mutator; `GcCollector` is the collector
  and the operations of the mutator; `GcEffect` says what each action of a program means, and `GcProgram` interleaves
  any program with the collector; `GcEphemeron` is the convergence and clearing of tables with weak keys.
- **Red-black tree and scheduler** (`Rb*.dfy`, `SpeTask`): nodes with parent links, and a ghost in-order sequence that
  every rotation keeps; the task scheduler uses the tree for its timers.
- **Hash table** (`Tab*.dfy`, `LuaTable`): array part and scatter table with moving of colliding nodes; a ghost map says
  what the table means.
- **Pattern matcher** (`Pm*.dfy`): the backtracking matcher, its ways in the order it tries them, and the declarative
  rules of what matches and of what is preferred.
- **Sort** (`LuaSort`), **accept mutex** (`SpeServer`), **framed reading** (`SpeBuf`, `SpeIo`).
- **Binary chunks** (`LuaChunk`, `LuaLayout`, `LuaCut`, `LuaDump`, `LuaUndump`): dump and undump over a stream in pieces.
- **JSON** (`JsonText`, `JsonBack`, `JsonUnicode`, `JsonPrint`, `JsonParse`, `JsonMinify`, `JsonComments`): printing,
  parsing and minifying.

Addresses are numbers and memory is a map from them to nodes or objects where the code links structures by pointers.
Hashes, comparisons, what `read` returns, what a reader or writer does, and clock values are parameters. Ghost
parameters and ghost fields carry what an invariant says about a list, a tree or the code; they have no part in what is
computed.

## Model

| member | source | states |
|---|---|---|
| `LuaParser.ReturnStat` | support/lua/src/lparser.c:1496-1526 | `return e` of a function: when it succeeds the code, run by the VM from any state that has its constants, ends normally with exactly the value and the comparison/arithmetic/upvalue events of the expression that was read, and no parameter is changed; the expression is the one the priorities fix. Whenever the tokens begin with a grouped expression small enough for the limits, it succeeds with that expression |
| `LuaParser.LexState.SubExpr` | support/lua/src/lparser.c:1037-1064 | Reading with a priority limit: the descriptor returned denotes, together with the code emitted, the expression whose tokens were consumed, which is the one the reference parser reads; failure is traced to the grammar or to a limit |
| `LuaParser.LexState.SimpleExp` | support/lua/src/lparser.c:937-984 | A constant, a local or an upvalue: the descriptor denotes it and one token is consumed |
| `LuaGrammar.ParseReads` | support/lua/src/lparser.c:1022-1032 | With the priority table, reading the shown tokens of any grouped expression, before anything that does not continue it, gives that expression and the rest |
| `LuaGrammar.OneGrouping` | support/lua/src/lparser.c:1022-1064 | The priorities leave no ambiguity: if the tokens of two grouped expressions begin the same text and neither is continued, the expressions and the rests are the same |
| `LuaGrammar.TighterTakes` | support/lua/src/lparser.c:1019-1064 | The precedence list of section 3.4.7 of the Lua 5.2 Reference Manual, by groups of operators: for operators l and h with h in a tighter group, `a l b h c` is read as `a l (b h c)` and `a h b l c` as `(a h b) l c`, and in no other way |
| `LuaGrammar.AlikeGroup` | support/lua/src/lparser.c:1019-1064 | Operators of one group are read from the left, `a l b h c` as `(a l b) h c`; `^` from the right |
| `LuaGrammar.PrefixTakes` | support/lua/src/lparser.c:1030-1064 | A prefix operator takes `a ^ b` whole, and only `a` before any other operator; after an operator it takes its own operand first |
| `LuaGrammar.MoreNests` | support/lua/src/lparser.c:1037-1064 | The calls pending while an expression is read are bounded by its nesting |
| `LuaCodeGen.FuncState.Infix` | support/lua/src/lcode.c:786-810 | After the first operand, the descriptor and code are what the second operand needs: a jump list for `and`/`or`, an operand in a register or constant for the others; short-circuit exits denote the first operand |
| `LuaCodeGen.FuncState.Posfix` | support/lua/src/lcode.c:813-859 | After the second operand, the descriptor denotes the binary expression: for every run the operand values, the result and the events are those of its evaluation, with the second operand skipped when the first decides, and with `>` and `>=` compiled by exchanged operands |
| `LuaCodeGen.FuncState.Prefix` | support/lua/src/lcode.c:762-783 | The descriptor denotes the unary expression; numerals are folded |
| `LuaCodeGen.FuncState.CodeNot` | support/lua/src/lcode.c:668-700 | `not`: the two exit lists are exchanged, their values are dropped, and the descriptor denotes the negation, whether a constant, a comparison whose accept bit is flipped, or an emitted NOT |
| `LuaCodeGen.FuncState.CodeComp` | support/lua/src/lcode.c:746-759 | A comparison followed by its jump; the jump is taken exactly when the comparison holds |
| `LuaCodeGen.FuncState.CodeArith` | support/lua/src/lcode.c:724-743 | Arithmetic on registers and constants, or the folded numeral; operands are evaluated in order |
| `LuaCodeGen.FuncState.GoIfTrue` | support/lua/src/lcode.c:621-642 | Control falls through exactly when the expression is true; the list returned holds the exits on which it is false |
| `LuaCodeGen.FuncState.GoIfFalse` | support/lua/src/lcode.c:645-665 | Control falls through exactly when the expression is false; the list returned holds the exits on which it is true |
| `LuaCodeGen.FuncState.JumpOnCond` | support/lua/src/lcode.c:606-618 | A test and its jump, or the reversed test when the last instruction is a NOT, which is taken back |
| `LuaCodeGen.FuncState.Exp2Reg` | support/lua/src/lcode.c:468-489 | All jumps are given targets and the value, from whichever exit, is in the register; nothing else below `freereg` changes |
| `LuaCodeGen.FuncState.Discharge2Reg` | support/lua/src/lcode.c:421-457 | The value is in the register unless the expression is a pending comparison |
| `LuaCodeGen.FuncState.Exp2NextReg` | support/lua/src/lcode.c:492-497 | The value is in a newly reserved register |
| `LuaCodeGen.FuncState.Exp2AnyReg` | support/lua/src/lcode.c:500-511 | The value is in some register, reusing the one it has when that is safe |
| `LuaCodeGen.FuncState.Exp2RK` | support/lua/src/lcode.c:528-555 | The value is in a register or a constant that fits the operand |
| `LuaParser.StoreLocal` | support/lua/src/lcode.c:558-564 | Assignment to a local variable: every run that reaches it evaluates the expression into that register, with its events in order, and changes no other register below the first free one |
| `LuaCodeGen.FuncState.DischargeVars` | support/lua/src/lcode.c:383-412 | A variable becomes a value: a local stays in its register, an upvalue is read by an emitted instruction |
| `LuaCodeGen.FuncState.PatchListAux` | support/lua/src/lcode.c:150-160 | Every member of a patch list gets its value or default target, its TESTSET gets the register or becomes a TEST, and no other instruction changes |
| `LuaCodeGen.FuncState.Concat` | support/lua/src/lcode.c:198-209 | The result is the list of the elements of both lists in order; only links of the first list change |
| `LuaCodeGen.FuncState.PatchTestReg` | support/lua/src/lcode.c:131-141 | A jump after a TESTSET carries a value: the TESTSET gets the register, or becomes a TEST when there is none or it is its own source |
| `LuaCodeGen.FuncState.RemoveValues` | support/lua/src/lcode.c:144-147 | No member of the list carries a value any more |
| `LuaCodeGen.FuncState.NeedValue` | support/lua/src/lcode.c:122-128 | True exactly when some jump of the list does not carry a value |
| `LuaCodeGen.FuncState.PatchToHere` | support/lua/src/lcode.c:192-195 | The jumps of the list become pending jumps to the next instruction, and the next position is marked as a target |
| `LuaCodeGen.FuncState.FixJump` | support/lua/src/lcode.c:80-87 | Only the jump changes, and it reaches its destination; an error only when the offset is too long, with no change |
| `LuaCodeGen.FuncState.Code` | support/lua/src/lcode.c:212-224 | Pending jumps are sent to the instruction that is appended |
| `LuaCodeGen.FuncState.Jump` | support/lua/src/lcode.c:59-67 | A new jump that heads a list with the jumps that were pending |
| `LuaCodeGen.FuncState.CondJump` | support/lua/src/lcode.c:74-77 | A test followed by a new jump |
| `LuaCodeGen.FuncState.InvertJump` | support/lua/src/lcode.c:598-603 | The condition of the last comparison is reversed |
| `LuaCodeGen.FuncState.LoadNils` | support/lua/src/lcode.c:37-56 | Registers become nil by a new LOADNIL, or by widening the previous one when no jump lands between them |
| `LuaCodeGen.FuncState.AddK` | support/lua/src/lcode.c:291-316 | The constant is in the pool at the index returned, and the pool is only extended |
| `LuaCodeGen.FuncState.CheckStack` | support/lua/src/lcode.c:261-268 | The stack size grows to what is needed; an error exactly at the limit |
| `LuaResult.Completed` | support/lua/src/lcode.c:468-489 | Finished code: every jump has a target, every TESTSET a register, and every run from its start leaves the value of the expression in the register, the events in order, and the locals unchanged |
| `LuaJumps.RunSim` | support/lua/src/lcode.c:150-160 | A run of code in which a list of jumps has been patched and to which more may have been appended does what the old run did: where that left through a jump of the list it goes on at the target, with the tested value in the register; every other exit stays; where that reached the end it goes on with what was appended |
| `LuaPatch.MeansInvert` | support/lua/src/lcode.c:598-603 | Reversing the last comparison exchanges the outcomes of every run and changes nothing else |
| `LuaPatch.MeansMerge` | support/lua/src/lcode.c:37-56 | Widening a LOADNIL computes the same as a separate LOADNIL for every run |
| `LuaManual.LogicalOperators` | support/lua/src/lcode.c:621-665 | The meaning that is compiled is the one of section 3.4.4 of the manual: nil and false decide, anything else counts as true, operands are results, and the second is skipped when the first decides |
| `LuaManual.RelationalOperators` | support/lua/src/lcode.c:746-759 | Section 3.4.3: each operator raises one comparison after both operands, `>` and `>=` with exchanged operands, `~=` negated |
| `LuaManual.ArithmeticOperators` | support/lua/src/lcode.c:724-743 | Section 3.4.1: numbers are computed with directly, other operands raise one event with the operands in order |
| `LuaManual.Negations` | support/lua/src/lcode.c:668-700 | `not` moved into `and` and `or` gives the same value and the same events |
| `GcProgram.Program.Run` | support/lua/src/lgc.c:1040-1107 | For every sequence of program steps (allocation, barriered stores, closures and upvalues, reads and writes through open and closed upvalues, stack and root assignments) and collector steps: each step has exactly its effect on the heap as the program sees it, collector steps change nothing in it, and no reachable object is freed |
| `GcProgram.Program.Do` | support/lua/src/lgc.c:1040-1107 | The heap after each action, as a relation to the heap before; operands that do not fit leave it unchanged |
| `GcProgram.Program.MakeClosure` | support/lua/src/lvm.c:401-417 | The new closure holds the values given and, for each captured slot, the open upvalue of that slot; nothing else of the heap changes except that new upvalues are open |
| `GcProgram.Program.Cut` | support/lua/src/lfunc.c:93-112 | Leaving a block closes exactly the upvalues from the level up and removes the slots |
| `GcEffect.ClosuresShare` | support/lua/src/lfunc.c:47-76 | Closures that have captured the same slot have the same upvalue |
| `GcEffect.LeaveKeeps` | support/lua/src/lfunc.c:93-112 | When a block is left, every object but the upvalues from the level up is as before: lower upvalues stay open |
| `GcEffect.LeaveCloses` | support/lua/src/lfunc.c:93-112 | A live upvalue from the level up becomes closed with the value its slot had |
| `GcEffect.SharedVariable` | support/lua/src/lfunc.c:93-112 | After an inner block is left, an assignment to an outer local is what a closure over that local reads |
| `GcCollector.GlobalState.FullGC` | support/lua/src/lgc.c:1189-1216 | From every state, the cycle ends in the pause state with exactly the objects that were reachable, by either definition (closed sets, paths), and the fixed strings, all in the current white, and every survivor holding what it held |
| `GcCollector.GlobalState.SingleStep` | support/lua/src/lgc.c:1040-1107 | One step in any phase keeps the invariant of that phase and everything reachable; each step makes progress; after the atomic step only what is reachable is alive; the pause finds everything white |
| `GcCollector.GlobalState.AtomicStep` | support/lua/src/lgc.c:999-1037 | The roots, the open upvalues and the objects sent back are marked again until nothing is gray: then whatever is not white refers to nothing white, and the white flips |
| `GcCollector.GlobalState.PropagateMark` | support/lua/src/lgc.c:521-563 | The first gray object becomes black, or a thread goes to the list for the atomic step; black objects refer to nothing white |
| `GcCollector.GlobalState.ReallyMark` | support/lua/src/lgc.c:243-295 | A white object becomes gray and listed, or black if it refers to nothing; open upvalues only gray |
| `GcCollector.GlobalState.RemarkUpvals` | support/lua/src/lgc.c:324-330 | The values of all gray open upvalues are marked, of dead threads too |
| `GcCollector.GlobalState.RetraverseGrays` | support/lua/src/lgc.c:582-591 | What was sent back during marking is visited again |
| `GcCollector.GlobalState.RestartCollection` | support/lua/src/lgc.c:337-344 | The main thread, the registry and the metatables are marked |
| `GcCollector.GlobalState.EnterSweep` | support/lua/src/lgc.c:936-946 | The sweep starts past the first live object, so that new objects are not swept |
| `GcCollector.GlobalState.SweepList` | support/lua/src/lgc.c:719-752 | Up to `count` objects: the dead are freed, the live turn to the current white, the open upvalues of live threads are swept, and what is new in front of the list is left alone |
| `GcCollector.GlobalState.SweepThread` | support/lua/src/lgc.c:698-706 | The dead open upvalues of a thread are freed and the others become white |
| `GcCollector.GlobalState.FreeObj` | support/lua/src/lgc.c:663-688 | The object alone is freed; a thread closes its upvalues first |
| `GcCollector.GlobalState.Barrier` | support/lua/src/lgc.c:135-152 | While marking, the value is marked; while sweeping, the object turns white; the invariant of the phase holds again |
| `GcCollector.GlobalState.BarrierBack` | support/lua/src/lgc.c:155-163 | The object goes back to gray and is visited again in the atomic step |
| `GcCollector.GlobalState.Store` | support/lua/src/lgc.c:135-163 | A store into an object, with the barrier its kind calls for, keeps the invariant and changes that slot only |
| `GcCollector.GlobalState.SetUpval` | support/lua/src/lvm.c:595-599 | A write through an upvalue changes the slot of the owning stack, even of a dead thread, or the closed value, and is what is read back |
| `GcCollector.GlobalState.NewObj` | support/lua/src/lgc.c:212-224 | A new object is white, alive and first in its list, and breaks no phase invariant |
| `GcCollector.GlobalState.NewShortString` | support/lua/src/lstring.c:116-127 | A new short string goes to its list of the string table |
| `GcCollector.GlobalState.InternString` | support/lua/src/lstring.c:133-149 | A dead string that is found again becomes alive |
| `GcCollector.GlobalState.FindUpval` | support/lua/src/lfunc.c:47-76 | The open upvalue of a stack slot: an existing one is returned, revived if it was dead, and the heap is unchanged; a new one is linked only when there was none, at the place that keeps the list strictly decreasing by level |
| `GcCollector.GlobalState.FreeUpval` | support/lua/src/lfunc.c:79-90 | A dead open upvalue is unlinked from both lists and freed |
| `GcCollector.GlobalState.CloseLevel` | support/lua/src/lfunc.c:93-112 | Exactly the upvalues of the thread from the level up are closed with the value they had, or freed if dead; the lower ones stay open, in order and unchanged, and so does everything else |
| `GcCollector.GlobalState.CheckUpval` | support/lua/src/lgc.c:190-206 | An upvalue closed while marking becomes black and its value is marked |
| `GcEphemeron.Marker.ConvergeEphemerons` | support/lua/src/lgc.c:594-609 | Rounds end, and then the marks are the least set that holds the old marks and is closed under strong references and under "a marked key keeps its value"; every marked table that still has a key to be cleared is in one of the two lists whose keys are cleared |
| `GcEphemeron.Marker.TraverseEphemeron` | support/lua/src/lgc.c:378-413 | Values of marked keys are marked; the table goes to `ephemeron` if a key to be cleared has an unmarked value, else to `allweak` if a key is to be cleared, else to `grayagain`, and to no other list |
| `GcEphemeron.Marker.ClearDead` | support/lua/src/lgc.c:1029-1030 | After the keys of the two lists are cleared, an entry of a marked table is left exactly if its key is alive, and then its value is alive |
| `GcEphemeron.Marker.ClearKeys` | support/lua/src/lgc.c:625-636 | Exactly the entries with dead keys leave the tables of the list; other tables are untouched |
| `GcEphemeron.LeastIsUnique` | support/lua/src/lgc.c:594-609 | The marks do not depend on the order in which tables are visited |
| `RbTree.RbRoot.InsertColor` | src/spe_rbtree.c:71-134 | The tree is red-black again with the same in-order sequence and nodes, and no deeper than 2*log2(n+1); the loop ends |
| `RbTree.RbRoot.Erase` | src/spe_rbtree.c:216-281 | Exactly the node leaves the in-order sequence; parent links, colours and black heights are right, and the depth is bounded as before |
| `RbTree.RbRoot.EraseColor` | src/spe_rbtree.c:136-214 | One missing black is made up for on the way to the root; sequence and nodes stay; the loop ends |
| `RbTree.RbRoot.RotateLeft` | src/spe_rbtree.c:25-46 | Children, parents and root after the turn; the in-order sequence stays |
| `RbTree.RbRoot.RotateRight` | src/spe_rbtree.c:48-69 | The mirror image |
| `RbTree.RbRoot.LinkNode` | src/spe_rbtree.h:179-186 | A red leaf is linked and stands in the sequence where the descent led |
| `RbTree.RbRoot.First` | src/spe_rbtree.c:354-364 | The first node of the sequence |
| `RbTree.RbRoot.Next` | src/spe_rbtree.c:378-404 | The following node of the sequence, or none |
| `RbTree.RbRoot.Prev` | src/spe_rbtree.c:406-428 | The preceding node of the sequence, or none |
| `RbModel.InOrder` | src/spe_rbtree.c:354-404 | The sequence kept by the operations is the in-order walk of the links |
| `RbModel.HeightBound` | src/spe_rbtree.c:71-281 | A tree with the red and black properties that insertion and erasure keep has depth at most 2*log2(n+1) |
| `SpeTask.Scheduler.Run` | src/spe_task.c:47-145 | For any sequence of operations, in any nesting: each has its exact effect on tasks, timers, queue and calls, and after each every task is among the timers, in the run queue or in neither, once, as its status says, and the timers are in the order of (expiry, time of scheduling) |
| `SpeTask.Scheduler.Do` | src/spe_task.c:47-145 | The state after each operation, as a relation to the state before |
| `SpeTask.Scheduler.ExpireTimers` | src/spe_task.c:117-145 | Exactly the timers with expiry at most `now` move to the run queue, in the order of expiry and, when equal, of scheduling, each marked as timed out; the others stay in order |
| `SpeTask.Scheduler.ScheduleTimeout` | src/spe_task.c:69-92 | A task that is not queued becomes a timer with the given expiry, behind every timer of equal expiry; the other timers keep their order |
| `SpeTask.Scheduler.Schedule` | src/spe_task.c:47-62 | A task that is not queued leaves the timers; it runs at once if it is fast and else goes to the end of the run queue |
| `SpeTask.Scheduler.Dequeue` | src/spe_task.c:99-110 | The task is in neither place; the others keep their order |
| `SpeTask.Scheduler.Init` | src/spe_task.c:20-30 | A new task is free |
| `SpeTask.Scheduler.SetHandler` | src/spe_task.h:24-28 | Only whether the task is fast changes |
| `PmMatch.MatchState.Match` | support/lua/src/lstrlib.c:410-510 | A hit is the preferred match by the declarative rules, with its end and captures; failure means that the rules lead to no match and to no error, with captures and depth counter as before; an error is the preferred one, or the recursion limit is passed |
| `PmMatch.MatchState.MaxExpand` | support/lua/src/lstrlib.c:346-358 | Longest first |
| `PmMatch.MatchState.MinExpand` | support/lua/src/lstrlib.c:361-371 | Shortest first |
| `PmMatch.MatchState.StartCapture` | support/lua/src/lstrlib.c:374-385 | A capture is opened for the rest of the match only |
| `PmMatch.MatchState.EndCapture` | support/lua/src/lstrlib.c:388-396 | The innermost open capture is closed for the rest of the match only |
| `PmMatch.MatchState.Find` | support/lua/src/lstrlib.c:577-626 | A hit or an error is the preferred one at the leftmost position where the rules lead anywhere, and the captures of a hit lie within it; failure means that they lead nowhere at any position |
| `PmDerive.WaysAreMatches` | support/lua/src/lstrlib.c:410-510 | A match with its end and captures, or an error, is among the ways the matcher tries if and only if the declarative rules derive it |
| `PmDerive.FirstWay` | support/lua/src/lstrlib.c:410-510 | The way the matcher takes is the preferred one of the declarative rules: each item is repeated as often as `?`, `*` and `+` allow, or as seldom as `-` allows, such that what follows leads anywhere; when there are no ways nothing is derivable |
| `PmDerive.OneBest` | support/lua/src/lstrlib.c:410-510 | At most one way is preferred |
| `PmDerive.BestDerives` | support/lua/src/lstrlib.c:410-510 | The preferred way is derivable |
| `PmDerive.MatchInside` | support/lua/src/lstrlib.c:374-396 | A match goes forward, keeps the captures there were, and every capture it leaves lies between its start and its end |
| `PmDerive.FirstItem` | support/lua/src/lstrlib.c:346-371 | The first way of an item starts after the most repetitions, or after the fewest for `-`, with which there is a way |
| `PmPattern.ClassEnd` | support/lua/src/lstrlib.c:242-263 | The end of a single-character item, or the error for an incomplete one |
| `PmPattern.MatchBracketClass` | support/lua/src/lstrlib.c:286-306 | Membership in the set as read from left to right, complemented after `^` |
| `PmPattern.SingleMatch` | support/lua/src/lstrlib.c:309-322 | Whether a character matches an item; never past the end of the subject |
| `PmPattern.MatchBalance` | support/lua/src/lstrlib.c:325-343 | The end of the shortest balanced stretch, or none |
| `PmPattern.ClassesComplement` | support/lua/src/lstrlib.c:266-283 | An upper-case class letter is the complement of its lower-case letter |
| `PmPattern.ClassMembers` | support/lua/src/lstrlib.c:266-283 | The classes for every character: %w is %a or %d, %a is %l or %u, %g is %w or %p, seven-bit characters are exactly one of %c, %g and the space, and the members of %d, %x, %s and %p |
| `PmPattern.NoClass` | support/lua/src/lstrlib.c:266-283 | After `%` any character that names no class stands for itself |
| `LuaTable.Table.Run` | support/lua/src/ltable.c:481-515 | Any sequence of gets, sets and lengths answers as a finite map would, for any hash; at most one rehash for each step |
| `LuaTable.Table.Set` | support/lua/src/ltable.c:510-515 | The slot of the key, created if need be, with the map unchanged; nil and NaN keys are errors; never more than one rehash |
| `LuaTable.Table.NewKey` | support/lua/src/ltable.c:405-440 | A new node for an absent key, moving a colliding node that is out of its main position, or chaining in |
| `LuaTable.Table.Get` | support/lua/src/ltable.c:481-503 | The slot that holds the key's value, or the nil object |
| `LuaTable.Table.GetInt` | support/lua/src/ltable.c:446-460 | The value of an integer key, from the array or the nodes |
| `LuaTable.Table.GetFreePos` | support/lua/src/ltable.c:387-394 | The free pointer only falls; none is returned only when no free node is left below it |
| `LuaTable.Table.Rehash` | support/lua/src/ltable.c:343-359 | The new sizes are best for the keys and the new one, the map stays, and there is room for the new key |
| `LuaTable.Table.Resize` | support/lua/src/ltable.c:304-334 | The map stays for all sizes that have room for the keys outside the array; every key is inserted without another rehash |
| `LuaTable.Table.SetNodeVector` | support/lua/src/ltable.c:279-301 | A node part of the next power of two, all free; an error exactly when it is too large |
| `LuaTable.Table.Next` | support/lua/src/ltable.c:169-186 | The next pair in traversal order, or the end, or an error for an unknown key; nothing live is passed over |
| `LuaTable.Table.FindIndex` | support/lua/src/ltable.c:144-166 | The traversal index of a key, also of one whose value was removed |
| `LuaTable.Table.Traverse` | support/lua/src/ltable.c:169-186 | Iterating from nil gives each pair that is there throughout once, and no key twice, even when values are assigned to or removed from existing keys during the traversal |
| `LuaTable.Table.RemoveEntry` | support/lua/src/lgc.c:107-111 | A dead key keeps its place in its chain |
| `LuaTable.Table.GetN` | support/lua/src/ltable.c:560-576 | A border: 0 or a key with a value, and the next key has none |
| `LuaTable.Table.UnboundSearch` | support/lua/src/ltable.c:532-553 | A border above a given key |
| `TabModel.MovedOk` | support/lua/src/ltable.c:405-440 | Moving a colliding node to a free one keeps every chain a path without repetition and every node behind its main position |
| `TabModel.ChainedOk` | support/lua/src/ltable.c:405-440 | Chaining a new node in keeps the same |
| `TabSizes.ComputeSizes` | support/lua/src/ltable.c:196-215 | The largest power of two more than half of whose slots are used, and how many keys go there |
| `TabSizes.NumUseArray` | support/lua/src/ltable.c:229-251 | The keys of the array part, counted by slices between powers of two |
| `TabSizes.CountInt` | support/lua/src/ltable.c:218-226 | One key more in its slice |
| `TabSizes.CeilLog2` | support/lua/src/lobject.c:55-70 | The logarithm to base 2, rounded up |
| `SpeServer.System.Run` | src/spe_server.c:42-69 | For any number of workers and servers and any interleaving of their steps: each step has its exact effect on mutexes, flags and polled sockets, and after each at most one worker polls the socket of a server, and it owns its mutex |
| `SpeServer.System.PreStep` | src/spe_server.c:42-57 | A try-lock on the next server; the worker listens exactly if it got the mutex |
| `SpeServer.System.PostStep` | src/spe_server.c:64-69 | Exactly the mutexes taken are released |
| `SpeServer.System.Postloop` | src/spe_server.c:64-69 | After the whole loop the worker owns nothing, and other owners are untouched |
| `SpeServer.System.Preloop` | src/spe_server.c:42-57 | Without interference, the worker takes every free mutex and no other |
| `SpeServer.System.AcceptStep` | src/spe_server.c:18-35 | A connection is accepted only by the owner of the mutex |
| `SpeServer.System.Do` | src/spe_worker.c:139-147 | The state after each step of the worker loop, as a function of the state before; a connection is accepted only by the owner |
| `SpeServer.AllFree` | src/spe_worker.c:139-147 | When all workers are between rounds, every mutex is free |
| `LuaSort.Sort` | support/lua/src/ltablib.c:247-256 | A permutation of positions 1 to n; sorted, without an error, for every strict weak order |
| `LuaSort.AuxSort` | support/lua/src/ltablib.c:184-245 | A permutation inside [l,u], sorted for every strict weak order without reaching "invalid order function"; the recursion depth d satisfies 2^d <= u-l+1 for any comparison at all |
| `LuaSort.Partition` | support/lua/src/ltablib.c:209-235 | The pivot in its place, nothing larger before it and nothing smaller behind it |
| `LuaSort.Median` | support/lua/src/ltablib.c:187-208 | First, middle and last in order |
| `SpeIo.Io.ReadUntil` | src/spe_io.c:103-111 | The record up to and with the first delimiter of all that is left, however it arrives, or all that is left at the end of the stream |
| `SpeIo.Io.Read` | src/spe_io.c:73-80 | A record exactly if anything is left: a nonempty prefix of it, and all of the buffer if that is not empty; nothing is delivered after the end or an error |
| `SpeIo.Io.ReadBytes` | src/spe_io.c:88-96 | The next n bytes of the stream, or what is left of it at its end |
| `SpeIo.Io.ReadCommon` | src/spe_io.c:22-66 | What is delivered, what is buffered and what is to come are together the same before and after |
| `SpeIo.Io.ReadAll` | src/spe_io.c:103-111 | Repeated reads give the records of the whole stream, for every chunking; joined, they are the stream |
| `SpeIo.FramesJoin` | src/spe_io.c:103-111 | The records of a text joined are the text, and each but the last ends at its first delimiter |
| `SpeBuf.Buf.Append` | src/spe_buf.c:28-43 | The text is extended; the window and its terminator stay inside the allocation |
| `SpeBuf.Buf.Clean` | src/spe_buf.h:68-73 | The text is empty; the allocation stays |
| `SpeBuf.Buf.Expand` | src/spe_buf.c:5-21 | The same text at the start of a larger allocation |
| `SpeBuf.Buf.LConsume` | src/spe_buf.c:68-75 | The first n characters are gone |
| `SpeBuf.Buf.Search` | src/spe_buf.c:98-104 | The first occurrence in the text up to its first terminator |
| `SpeBuf.Buf.ReadAppend` | src/spe_buf.c:210-225 | What one read returned is appended |
| `LuaUndump.Load` | support/lua/src/ldo.c:640-648 | For every division of a dumped chunk into non-empty pieces the dumped prototype comes back, without its debug data if that was stripped; a proper prefix is reported as truncated; for any input the result depends on the bytes only, not on the pieces |
| `LuaUndump.LoadState.Function` | support/lua/src/lundump.c:171-182 | Reads what the reference reader reads, at every nesting depth |
| `LuaUndump.LoadState.Constants` | support/lua/src/lundump.c:96-123 | The constants in order; unknown tags leave nil |
| `LuaUndump.LoadState.Debug` | support/lua/src/lundump.c:149-169 | Source, lines, locals and the names of upvalues |
| `LuaUndump.LoadState.Header` | support/lua/src/lundump.c:190-201 | Accepted only if equal to the own header; the first difference decides the error |
| `LuaUndump.LoadState.String` | support/lua/src/lundump.c:72-84 | A size and a terminated string, or none |
| `LuaUndump.Zio.Read` | support/lua/src/lzio.c:42-65 | The next bytes of the stream across pieces, or all of it and how many are missing |
| `LuaUndump.Zio.Fill` | support/lua/src/lzio.c:21-33 | The next piece, of which the first byte is consumed; none at the end of the stream |
| `LuaChunk.FunctionBack` | support/lua/src/lundump.c:171-182 | Reading a dumped prototype gives it back at every depth and leaves what follows it |
| `LuaChunk.ChunkBack` | support/lua/src/lundump.c:190-213 | The same for a whole chunk with its header |
| `LuaLayout.FunctionLayout` | support/lua/src/ldump.c:139-147 | Where the lines, the parameters, the instructions and the number of constants stand, byte by byte |
| `LuaLayout.ConstantLayout` | support/lua/src/ldump.c:80-103 | The tag of each constant, and what follows it |
| `LuaLayout.IntLayout` | support/lua/src/ldump.c:76-84 | Whole numbers take four bytes, the lowest first |
| `LuaLayout.HeaderLayout` | support/lua/src/lundump.c:244-258 | The header, byte by byte |
| `LuaCut.CutFunction` | support/lua/src/lundump.c:45-48 | Reading an input cut short either gives the same value, when the cut is behind it, or is truncated |
| `LuaCut.CutShort` | support/lua/src/lundump.c:45-48 | Every proper prefix of a dumped chunk is reported as truncated |
| `LuaDump.Dump` | support/lua/src/ldump.c:162-173 | All of the chunk is written unless the writer fails; then a prefix is, which no reader accepts unless it is everything |
| `LuaDump.DumpState.Function` | support/lua/src/ldump.c:139-150 | The bytes of a prototype are asked for in the order the reader expects; none after an error |
| `LuaDump.DumpState.Block` | support/lua/src/ldump.c:29-37 | The writer is called only while there is no error |
| `JsonParse.ParseText` | src/cJSON.c:264-284 | The parser of positions and buffers reads what the reference parser reads; every printed value of either form is read back, and `JsonUnicode.LiteralRead` says what escapes are read as |
| `JsonParse.Value` | src/cJSON.c:287-299 | Dispatch on the first characters |
| `JsonParse.Array` | src/cJSON.c:320-345 | Items, commas and white space up to the bracket |
| `JsonParse.Object` | src/cJSON.c:406-439 | Names, colons, values and commas up to the brace |
| `JsonParse.String` | src/cJSON.c:155-211 | Unescaped, as the reference parser does, into a buffer whose size is computed beforehand and never exceeded |
| `JsonParse.Number` | src/cJSON.c:96-115 | Sign and digits; anything beyond whole numbers of the range is refused |
| `JsonBack.ValueBack` | src/cJSON.c:287-345 | Reading the printed text of any value, at any depth and in both forms, before anything that does not continue it, gives the value and what follows |
| `JsonBack.ParseBack` | src/cJSON.c:264-284 | A printed text followed by white space is a whole text of that value |
| `JsonUnicode.LiteralRead` | src/cJSON.c:155-211 | A literal in which each character stands for itself in UTF-8, is named by one of the eight escape letters, or is given by one unit or a surrogate pair in either case of its digits, is read as a string whose bytes decode to those characters |
| `JsonUnicode.Utf8Decodes` | src/cJSON.c:190-199 | For every scalar value the bytes stored are its form in RFC 3629, by a decoder that reads lead and continuation bytes |
| `JsonUnicode.Utf8Form` | src/cJSON.c:190-199 | One to four bytes by the size of the code point, each in the range of its place |
| `JsonUnicode.EscapeDecodes` | src/cJSON.c:140-199 | Four hexadecimal digits in either case, or a surrogate pair, leave bytes that decode to the code point |
| `JsonUnicode.UnitDropped` | src/cJSON.c:177-180 | A unit of zero or of a second half alone leaves nothing: so the law above holds of every scalar value but zero |
| `JsonUnicode.HalfDropped` | src/cJSON.c:182-184 | A first half that no unit follows leaves nothing |
| `JsonUnicode.PrintNames` | src/cJSON.c:215-246 | Each seven-bit character is printed in a form that names it |
| `JsonPrint.Value` | src/cJSON.c:302-317 | The text of a value in the chosen form |
| `JsonPrint.Array` | src/cJSON.c:348-403 | Built in a buffer of the computed size, which always suffices |
| `JsonPrint.Object` | src/cJSON.c:442-513 | The same for names, values and indentation |
| `JsonPrint.String` | src/cJSON.c:215-246 | Quoted and escaped in a buffer of exactly the size computed, terminators of intermediate writes included |
| `JsonPrint.Number` | src/cJSON.c:118-127 | At most eleven characters in a buffer of twenty-one |
| `JsonMinify.Minify` | src/cJSON.c:581-596 | In place: white space and comments are gone and string literals are untouched, and writing never overtakes reading |
| `JsonMinify.PrintMinified` | src/cJSON.c:581-596 | Minifying the formatted text of any value gives exactly its unformatted text |
| `JsonComments.OutsideSplits` | src/cJSON.c:581-596 | A text that is cut outside literals and comments is minified part by part |
| `JsonComments.BlockComment` | src/cJSON.c:591 | A block comment outside literals makes no difference; its text must not contain the closing mark, even formed with the star that opens it |
| `JsonComments.LineComment` | src/cJSON.c:590 | A line comment outside literals makes no difference |
| `JsonComments.SlashCloses` | src/cJSON.c:591 | A slash right after the opening star closes the comment |

## Left out

Code generator
- Table indexing, calls, varargs, concatenation, assignments, statements and upvalue closing by jumps; the expression
  forms covered are constants, locals, upvalues, `and`, `or`, `not`, comparisons, arithmetic, unary minus and length.
- Metamethods run arbitrary code; here a comparison, an arithmetic operation, a length and an upvalue read append an
  event to a trace and get an arbitrary answer that may depend on it. Line information is left out.
- An expression descriptor is passed by value, so aliasing of descriptors is not captured; `luaK_exp2RK` on the first
  operand in `codecomp` is shown to change nothing and is not repeated. Some C functions are split into several methods.
- LuaCodeGen.FuncState.AddK: looks a constant up by scanning the pool instead of through the table of constants, so the
  separate keys for NaN and negative zero are not modelled; a constant may be appended again.
- LuaCodeGen.FuncState.LoadNils: for the registers of expressions; merging across other instructions does not occur.
- LuaParser.ReturnStat: the size of an expression that is certain to compile is a bound in terms of its tokens
  (`Small`), smaller than what the limits of the code allow.

Collector
- GcCollector.GlobalState.FullGC: finalizers, emergency collections and the return to generational mode, which share
  its lines, are not modelled; the cycle itself is.
- GcProgram.Program.Run: weak tables are not part of the interleaved theorem, since tables on the all-weak list are not
  visited again in the atomic step; resizing of the string table, the closure cache and stack slots above the top are
  left out too.
- Gray lists are sequences instead of threads through the objects, and a position in a list is an index. The contents of
  a table are one sequence of references. The bit layout of the mark byte is not modelled: a colour is a value.
- GcCollector.GlobalState.FreeObj: a thread closes its upvalues before it is unlinked, the code after; the position of
  the sweep is kept in the field throughout.
- Memory accounting, pause and step size: how often steps happen is arbitrary.
- GcEphemeron.Marker.ConvergeEphemerons: entries whose value is nil are not in the entry lists; userdata and closed
  upvalues are visited through the gray list.

Tree and scheduler
- Augmented callbacks, `rb_replace_node` and `rb_last`; nodes are values in a map, so embedding in other structures is
  not captured.
- SpeTask.Scheduler.Run: what a handler does is any sequence of operations; which handler a task has is not modelled,
  nor that the run loop ends, which handlers may prevent.
- `_expire` is 32 bits wide: the expiry is taken modulo 2^32, and claims are about the stored value.

Matcher
- PmMatch.MatchState.Find: pattern search only; the search for plain text, `gsub` and `gmatch` are left out. Characters
  are bytes classified as in the C locale, and errors are results instead of long jumps.
- The tail calls of `match` are a loop over three methods.

Hash table
- Metatables, barriers and the cache of absent metamethods; the array and the nodes are sequences; the state after
  "table overflow" is not described.
- LuaTable.Table.Resize: needs room for the keys outside the array, as every caller provides.
- LuaTable.Table.Run: integer keys are unbounded and the array part is at most 2^30; a key that is a number but no
  integer is an opaque key. The table of 256 logarithms is a function.
- LuaTable.Table.Traverse: assignments to existing keys during the traversal are modelled, and no insertion, for which
  the code promises nothing.

Sort
- LuaSort.Sort: the comparison is a pure function; errors inside it, and nil elements, are left out.

Server
- SpeServer.System.Run: a fixed set of servers; registration while the loop runs, a crash while holding a mutex, and
  failing registrations with the kernel are left out.

Reading
- SpeIo.Io.ReadUntil: for streams without terminators, since the search stops at the first one; `Search` says what
  happens then. Failing allocations, unsigned overflow of sizes and the write path are left out.
- SpeBuf.Buf.ReadAppend: a fresh allocation has a terminator only once bytes have arrived.

Binary chunks
- LuaUndump.Load: text chunks, the mode check, the closure around the prototype and memory errors are left out.
- LuaUndump.LoadState.Debug: more names than upvalues is an error here; the code does not check it.
- LuaUndump.LoadState.Constants: a string constant of size 0, which is never dumped, reads as nil.
- LuaUndump.Zio.Fill: the counter after the end of the stream, which wraps around in `zgetc`, is not modelled.
- A number is 64 bits without meaning; a boolean constant is true for any byte but 0.
- A prototype being read is a value built up instead of an object filled in.

JSON
- JsonParse.Number: fractions, exponents and numbers outside the range of `int` are refused; floating point is not part
  of this model.
- JsonParse.String: where malformed text would make the code read behind the terminator or write behind its buffer, the
  result is a failure; likewise JsonMinify.Minify for comments and strings without an end.
- Children are sequences instead of linked items; deletion, editing, duplication, references and failing allocations
  are left out.

Not modelled at all
- System calls, sockets, processes, signals, logging, epoll; remote calls, thread pool, hash map, connections and
  string utilities of the server; coroutines, debug hooks, `goto` and the other libraries of Lua; the encoding of sizes
  as floating bytes (`luaO_int2fb`), which has no use in the parts covered.

# The Lua 5.1 core and the sparse-image writer

This project models the parts of the Lua 5.1 core, and the writer of sparse flash images in the
flashing script, whose correctness cannot be seen from one function at a time, and proves what they
are for.

- The incremental collector: its marking, its two write barriers, the atomic step and the lazy sweep,
  interleaved in any order with what a program does. `LuaObjects`, `Marking`, `Collector` and
  `CollectorInvariant` hold the specification and the invariant, `Mutator` the runs, `FullCollection`
  the full cycle, `Liveness` what is alive by the fields of each kind of object, and `CollectorMachine`
  the collector as it updates `global_State` in place.
- Tables with an array part and a chained scatter table: `HashNodes`, `TableContents`, `TableCounts`,
  `LuaTable` (the class), `TableWalk` (traversal and length) and `References` (`luaL_ref`).
- The code generator for expressions, with its patch lists, and the virtual machine it emits code for:
  `LuaVM`, `Expressions`, `ExpressionLaws` (the operators as the manual has them), `PatchLists`, the
  `Exp*` and `Code*` modules, `CodeGen` (the class `FuncState`), `CompiledRuns` (what finished code does)
  and `LostValues` (which expressions keep their values).
- The bytecode checker over the whole instruction set (`Opcodes`, `CodeChecker`, and `CheckerRules` for
  what it asks of each instruction), the interpreter and what the code that is accepted can do
  (`Interpreter`), what each instruction does (`InstructionEffects`) and the numeric `for` (`ForLoops`).
- Upvalues as shared variables (`OpenUpvalues`), the string table (`StringTable`), the operator
  precedence parser (`ExprParser`, and `Precedence` for the levels of the manual), the pattern matcher
  with its captures (`PatternItems`, `PatternCaptures`, `PatternLaws`, `PatternMatch`), quoting
  (`StringTokens`), precompiled chunks (`Chunks`, `ChunkFormat`, `ChunkErrors`, `ChunkIO`), `table.sort`
  (`TableSort`) and the sparse-image writer (`SparseWriter`, `SparseFormat`).

Code that works by changing things step by step is a class or a method with loops, proved against
functions on values; what the source promises is proved about those functions. Operations on numbers,
hash functions and character classes are parameters of the models. Memory is never exhausted.

Where the code and what is expected of it part, the model follows the code.

- A literal that always jumps takes along the jumps that were to lead to it (lua-5.1/lcode.c:54-61), and
  with them values that are not that of the expression: `((a or false) and false) and b` is `false`, and
  its code computes `a` (`LostValues.ValueLost`, and `LostValues.ShapeLoses` for any operands in this
  shape). `CodeGen.FuncState.ReturnFunction` says for every expression what its code computes.
  `LostValues.KeepsValue` follows such jumps through the tree: where it holds, that is the value of the
  expression, and in expressions of `and`, `or` and `not` with no variable twice only there
  (`LostValues.KeptExactly`).
- Minus before `nil`, `true` or `false` becomes an instruction with a constant where it takes a register
  (`CodeGen.FuncState.MinusLiteral`), and the checker accepts no code with it (`Interpreter.MinusRefused`).
- Looking for the last change of a register, the checker overlooks some: the variable of a numeric `for`
  (`InstructionEffects.UnseenChange`), and those that `InstructionEffects.Unseen` lists. It sees all
  others (`InstructionEffects.OnlyChanges`).
- Strings with carriage returns do not survive quoting: `StringTokens.QuotingRoundTrip` says that the
  round trip holds exactly without them.

## Model

| member | source | states |
|---|---|---|
| Marking.MarkObjectOk | lua-5.1/lgc.c:69-112 | Marking an object keeps every gray object in one of the two lists or exempt and no black object pointing to a white one, unmarks nothing, and leaves the object marked |
| Marking.PropagateMarkOk | lua-5.1/lgc.c:277-320 | Traversing the first gray object keeps that invariant, also for a thread, which goes back to the list of those to visit again, and a table that the barrier turned gray |
| Marking.AtomicMarksOk | lua-5.1/lgc.c:523-551 | After the atomic step nothing is gray, every reference of a black object is to a black one, and all open upvalues, the running thread and the metatables have been marked |
| CollectorInvariant.SingleStepOk | lua-5.1/lgc.c:554-603 | A step in any of the five states keeps the whole invariant (no black-to-white edge while propagating, nothing live with the old white while sweeping) and every reachable object |
| Mutator.DoOk | lua-5.1/lgc.c:658-706 | Every operation of a program with its barrier, and every step of the collector, keeps the invariant |
| Mutator.RunSafe | lua-5.1/lgc.c:405-426 | Over every interleaving of program operations and collector steps the invariant holds and no object reachable from the roots is ever freed |
| Mutator.InitialOk | lua-5.1/lgc.h:69-97 | The state of a new universe satisfies the invariant, so that every run from it is safe |
| Mutator.FindsOpen | lua-5.1/lfunc.c:53-66 | The search of the open list finds the upvalue of a slot whenever there is one |
| Mutator.FindUpValOk | lua-5.1/lfunc.c:53-79 | Capturing a slot in any collector state keeps the invariant and yields a live open upvalue of that slot, reviving a dead one |
| Mutator.CloseOk | lua-5.1/lfunc.c:96-112 | Closing upvalues in any collector state keeps the invariant and loses nothing live, although the barrier runs once for each of them |
| FullCollection.FullGcExact | lua-5.1/lgc.c:632-655 | A full collection begun in any collector state ends in the pause; the objects left are exactly those that were reachable or are fixed, and all of them have the current white |
| Liveness.ReachableIsAlive | lua-5.1/lgc.c:69-256 | What chains of references from the roots lead to is exactly what is in every set that holds the main thread, the running thread, the registry and the basic metatables, and with an object all that its fields name: the fields are given kind by kind, apart from the marking |
| Liveness.CollectsGarbage | lua-5.1/lgc.c:632-655 | A full collection leaves an object exactly if it is alive in that sense or fixed |
| Liveness.NothingLost | lua-5.1/lgc.c:554-603 | After any run of program operations and collector steps, every object that is alive in that sense is in the heap |
| CollectorMachine.GlobalState.ReallyMarkObject | lua-5.1/lgc.c:69-112 | The recursive marking in place leaves the colours and gray lists that the specification of marking gives |
| CollectorMachine.GlobalState.PropagateMark | lua-5.1/lgc.c:277-320 | The traversal loops over array slots, nodes, upvalues and stack mark just what the specification marks |
| CollectorMachine.GlobalState.Atomic | lua-5.1/lgc.c:523-551 | The atomic step in place is the specified one, with the order of remarking that the code has |
| CollectorMachine.GlobalState.SingleStep | lua-5.1/lgc.c:554-603 | A step in place is the specified step in every state |
| CollectorMachine.GlobalState.FullCollect | lua-5.1/lgc.c:632-655 | The loops of the full collection end, and end in the state that the specification gives |
| CollectorMachine.GlobalState.BarrierF | lua-5.1/lgc.c:658-668 | The forward barrier marks the value while propagating and otherwise whitens the owner |
| CollectorMachine.GlobalState.BarrierBack | lua-5.1/lgc.c:671-679 | The backward barrier turns the table gray and chains it for the atomic step |
| CollectorMachine.GlobalState.LinkUpVal | lua-5.1/lgc.c:691-706 | Closing an upvalue links it with the colour its state calls for, with a barrier for what it holds |
| CollectorMachine.GlobalState.FindUpVal | lua-5.1/lfunc.c:53-79 | The walk along the open list finds, revives or inserts the upvalue as specified |
| CollectorMachine.GlobalState.Close | lua-5.1/lfunc.c:96-112 | The loop closes live upvalues, frees dead ones and stops at the level, as specified |
| CollectorMachine.GlobalState.SweepRoots | lua-5.1/lgc.c:405-426 | Sweeping part of the list frees dead objects, whitens the others and sweeps the open upvalues of threads |
| LuaTable.Table.Get | lua-5.1/ltable.c:469-491 | Reading returns the value the map has for the key, through array part or chain, and nil for nil and not-a-number |
| LuaTable.Table.RawSet | lua-5.1/ltable.c:494-505 | Assigning changes the map at that key only; nil and not-a-number raise their errors and change nothing; an overflow error only if there are 2^26 keys or more already |
| LuaTable.Table.NewKey | lua-5.1/ltable.c:399-429 | Inserting a key, by moving a colliding node to its home, chaining, reusing a dead node or rehashing, gives it a slot and changes no lookup; with room it reallocates nothing |
| LuaTable.Table.GetFreePos | lua-5.1/ltable.c:382-388 | The free pointer finds a free node if there is one at or below it, and otherwise there is no room |
| LuaTable.Table.Resize | lua-5.1/ltable.c:297-324 | Moving all entries between array and nodes keeps the map, and works exactly unless the node part would be too large |
| LuaTable.Table.Rehash | lua-5.1/ltable.c:333-349 | After a rehash the array has the best size for the keys with the new one, the map is the same, and the new key can be put in without another rehash |
| LuaTable.Table.NumUseArray | lua-5.1/ltable.c:222-244 | The histogram counts the array keys of every slice between powers of two, and their number is returned |
| LuaTable.Table.NumUseHash | lua-5.1/ltable.c:247-260 | The node keys are added to the histogram, with their number and that of possible array indices |
| LuaTable.Table.SetNodeVector | lua-5.1/ltable.c:272-294 | A node part of at least the size asked for, a power of two or the shared dummy, with all nodes free |
| LuaTable.Table.RemoveEntry | lua-5.1/lgc.c:62-66 | Marking a key dead changes no lookup and leaves every chain intact |
| TableCounts.ComputeSizes | lua-5.1/ltable.c:189-208 | The size is the largest power of two of which more than half the indices are used (0 if there is none), with the exact count of keys it takes |
| TableCounts.Log2 | lua-5.1/lobject.c:54-69 | The table-driven logarithm is the floor of the binary logarithm, -1 for 0 |
| TableContents.RehashRoom | lua-5.1/ltable.c:333-349 | The number of keys left for the nodes is what is counted, less the new key if it goes to the array, so that there is room for it |
| TableWalk.UnboundSearch | lua-5.1/ltable.c:532-557 | Doubling and bisection end at an index that is present, or 0, with an absent successor |
| TableWalk.GetN | lua-5.1/ltable.c:560-576 | The length is such a boundary for every table |
| TableWalk.FindIndex | lua-5.1/ltable.c:137-159 | The position of a key is found, also that of a dead key, and the error is raised exactly if the key is not there |
| TableWalk.Next | lua-5.1/ltable.c:162-179 | The entry returned is the first non-nil one after the position of the key, and the end only if there is none |
| TableWalk.AllVisited | lua-5.1/ltable.c:162-179 | A traversal visits every position that keeps a value, also when entries are changed or cleared on the way |
| TableWalk.Walk | lua-5.1/ltable.c:137-179 | A whole traversal with assignments to existing fields and burials between the calls raises no error, returns no key twice, each with its value, and every key that keeps a value |
| References.RefTable.Ref | lua-5.1/lauxlib.c:475-495 | A new reference is none of the live ones, holds the value, and leaves all others as they were; it fails only if the table has 2^26 keys or more |
| References.RefTable.Unref | lua-5.1/lauxlib.c:498-506 | Releasing a reference removes it from the live ones and changes no other; the free list stays threaded through the rest of 1..n; the same bound for a failure |
| CodeGen.FuncState.PatchListAux | lua-5.1/lcode.c:145-155 | Every jump of the list gets its target, and the instruction of a test with a value is rewritten for the register; it fails only if a jump is too long |
| CodeGen.FuncState.Concat | lua-5.1/lcode.c:180-191 | The lists threaded through the operands are joined, one after the other |
| CodeGen.FuncState.CodeNil | lua-5.1/lcode.c:35-51 | A LOADNIL is extended only where no jump can come in between, and is left out at the start of the function only for registers that are nil |
| CodeGen.FuncState.Exp2Reg | lua-5.1/lcode.c:385-406 | Whatever form the expression has, its value gets to the register from every jump of its lists |
| CodeGen.FuncState.Exp2NextReg | lua-5.1/lcode.c:409-414 | The same for the next free register, which is then in use |
| CodeGen.FuncState.GoIfTrue | lua-5.1/lcode.c:534-559 | Control falls through if the value is true and leaves by the false list otherwise |
| CodeGen.FuncState.GoIfFalse | lua-5.1/lcode.c:562-586 | Control falls through if the value is false and leaves by the true list otherwise |
| CodeGen.FuncState.CodeNot | lua-5.1/lcode.c:589-621 | The expression becomes its negation, by folding, inverting or exchanging the lists, whose jumps no longer carry values |
| CodeGen.FuncState.CodeArith | lua-5.1/lcode.c:656-667 | Two operands become the result of the operation, by folding or an instruction with register or constant operands |
| CodeGen.FuncState.CodeComp | lua-5.1/lcode.c:670-683 | Two operands become a comparison with a jump; for `>` and `>=` they are exchanged, and what that means is `ExpressionLaws.Comparisons` and `ReturnComparison` |
| ExpressionLaws.DerivedComparisons | lua-5.1/lcode.c:767-772 | `x > y` is `y < x`, `x >= y` is `y <= x` and `x ~= y` is `not (x == y)`, for all operands, registers and machines |
| ExpressionLaws.Comparisons | lua-5.1/lcode.c:670-683 | Each of the six comparisons of operands with the values v and w is what the machine answers for `<`, `<=` or `==` of v and w, in this order or exchanged |
| ExpressionLaws.ArithmeticOperators | lua-5.1/lvm.c:469-528 | Arithmetic on numbers is that of the machine on the operands in their order, other operands and the length are left to metamethods |
| ExpressionLaws.LogicalOperators | lua-5.1/lcode.c:707-745 | Only nil and false are false; `and` and `or` answer with an operand and evaluate the second only if the first does not decide |
| ExpressionLaws.Errors | lua-5.1/lcode.c:707-775 | An error in an operand that is evaluated is one of the whole; both operands are evaluated but for `and` and `or` |
| ExpressionLaws.Atoms | lua-5.1/lparser.c:731-780 | Locals, upvalues and literals stand for themselves, and parentheses change nothing |
| CodeGen.FuncState.Prefix | lua-5.1/lcode.c:686-704 | A unary operation means the operation on the value of its operand, whatever form that has, but for minus on nil, true and false |
| CodeGen.FuncState.MinusLiteral | lua-5.1/lcode.c:686-695 | For minus on nil, true and false, the instruction emitted has the index of a constant as its operand |
| Interpreter.MinusRefused | lua-5.1/ldebug.c:304-313 | No code that the checker accepts has such an instruction |
| CodeGen.FuncState.Expression | lua-5.1/lparser.c:827-852 | Any expression compiles to code that means it exactly, lost values included: where a run falls through or leaves, and with which value; it uses no more constants than it has, and fails only when code, constants or registers run out |
| CodeGen.FuncState.ValueToNextReg | lua-5.1/lcode.c:409-414 | For all final code and all registers: the run leaves what the expression computes in the next register and lower registers as they were, or raises the error; this is the value of the source expression wherever no jump on hold loses it; one more register is in use |
| CodeGen.FuncState.Cond | lua-5.1/lparser.c:962-969 | As a condition, the expression leaves by the returned list exactly if what its code computes is false, and otherwise falls through |
| CodeGen.FuncState.ReturnFunction | lua-5.1/lparser.c:1235-1265 | The function of one return statement returns, for all arguments, what its expression computes, and the value of the source expression wherever no jump on hold loses it, or raises the error; its code is complete |
| CodeGen.FuncState.ReturnComparison | lua-5.1/lcode.c:670-683 | The function `return x op y` for each comparison returns the boolean that the machine answers for the values of its operands, exchanged for `>` and `>=`, negated for `~=`; stated without the meaning of expressions |
| CodeGen.FuncState.ConditionFunction | lua-5.1/lparser.c:1127-1135 | The function that only decides goes one way exactly if the expression is true and the other if it is false, for all expressions none of whose operands may have lost its value |
| CodeGen.FuncState.CompleteIsChecked | lua-5.1/lparser.c:355-373 | Every complete function is accepted by the bytecode checker |
| CompiledRuns.ValueRuns | lua-5.1/lvm.c:384-580 | The claim that the code generator keeps about a value means a run of the virtual machine to the end with the value in its register |
| CompiledRuns.BranchRuns | lua-5.1/lvm.c:566-579 | Its claim about a branch means a run that goes on behind the code or at the target of the list, as the value decides |
| CompiledRuns.ReturnedRuns | lua-5.1/lvm.c:384-580 | Code with all jumps resolved and a final return runs from the start of the function to that return with the value |
| CompiledRuns.ConditionalRuns | lua-5.1/lvm.c:566-579 | Code of a condition with two returns runs from the start to the one the value decides |
| LostValues.CourseOf | lua-5.1/lcode.c:511-586 | Every run takes one of the courses found from the tree, and the value is lost exactly if the course says so |
| LostValues.ValueKept | lua-5.1/lcode.c:54-61 | If no course loses a value, what the code computes is the value of the expression, for all registers |
| LostValues.TruthKept | lua-5.1/lcode.c:534-586 | If none of the operands loses its value, the code decides as the expression does, for all registers |
| LostValues.KeptExactly | lua-5.1/lcode.c:54-61 | For expressions of `and`, `or` and `not` over locals, each once, and literals, the condition is exact: the code computes the value for all locals if and only if no course loses it |
| LostValues.ShapeLoses | lua-5.1/lcode.c:562-586 | For every tested operand `z` that is true, and all `w` and `y`, the code of `((z or w) and false) and y` computes `z`; and the dual shape with a false `z` |
| LostValues.ValueLost | lua-5.1/lcode.c:54-61 | The smallest such expression: its code computes a local where its value is `false`, although it decides rightly as a condition |
| LostValues.NotNecessary | lua-5.1/lcode.c:54-61 | With a local twice the condition is not necessary: a course loses the value of this expression, and yet its code computes the value for all locals |
| CodeChecker.Symbexec | lua-5.1/ldebug.c:317-457 | For code of all 38 instructions: without a register to look for, the pass accepts exactly the code whose every instruction, but for the words that hold the count of a `SETLIST`, is well formed; asked for a register it accepts no less, and answers with the last instruction that it visits before `lastpc` and that changes the register, or with the final return if none of them does |
| CodeChecker.LastBefore | lua-5.1/ldebug.c:317-457 | In code without forward jumps and counts that answer is the last instruction before `lastpc` that changes the register: none in between does |
| CodeChecker.JumpTaken | lua-5.1/ldebug.c:399-409 | When it looks for a register, the pass goes along with a forward jump and visits nothing in between |
| CodeChecker.ChangesAre | lua-5.1/ldebug.c:337-457 | Which registers each instruction is taken to change |
| InstructionEffects.OnlyChanges | lua-5.1/ldebug.c:337-457 | If the rest of the system leaves the registers alone, a turn of the interpreter changes no register but those the checker takes for changed and those that it overlooks |
| InstructionEffects.UnseenChange | lua-5.1/lvm.c:649-660 | The input for which it overlooks one: `FORLOOP` sets register `a+3` |
| CheckerRules.CallRule | lua-5.1/ldebug.c:410-423 | A call is accepted exactly if its function, arguments and results are in the frame, and one with open results is followed by an instruction that takes them all |
| CheckerRules.ClosureRule | lua-5.1/ldebug.c:434-444 | A closure is accepted exactly if its prototype is there and as many pseudo instructions follow as it has upvalues |
| CheckerRules.VarargRule | lua-5.1/ldebug.c:445-453 | `VARARG` is accepted exactly in a vararg function without `arg`, with its results in the frame or all taken by the next instruction |
| CheckerRules.SetListRule | lua-5.1/ldebug.c:429-433 | `SETLIST` is accepted exactly if the table and its values are in the frame |
| CheckerRules.GenericForRule | lua-5.1/ldebug.c:393-398 | `TFORLOOP` is accepted exactly with a result, its registers in the frame and a jump behind it |
| CheckerRules.ReturnRule | lua-5.1/ldebug.c:424-428 | `RETURN` is accepted exactly if what it returns is in the frame |
| CheckerRules.OtherRules | lua-5.1/ldebug.c:304-457 | Every other instruction is accepted exactly if all registers, constants and upvalues that it uses are there, fields it does not have are zero, its jump lands in the code and on no count, and what it may skip is followed by code |
| CodeChecker.CheckCode | lua-5.1/ldebug.c:466-468 | A prototype is accepted exactly if its whole code is |
| Interpreter.CheckedRuns | lua-5.1/lvm.c:373-760 | Whatever tables, metamethods and other closures do, every state that any number of turns of accepted code reaches has its program counter in the code and an instruction whose registers (`a+1` of `SELF`, the range of `CONCAT`, `a+3` of the loops included), constants and upvalues are there; a run ends only at a return, with an error, or at an instruction that is left out |
| Interpreter.SameTurn | lua-5.1/lvm.c:384-580 | On encoded code of expressions, a turn of this interpreter is a step of the machine that the code generator is proved against |
| InstructionEffects.UsesOnly | lua-5.1/lvm.c:390-760 | An instruction has nothing to do with a register that it is not said to use: with another value there it does the same, and the value is still there |
| InstructionEffects.MoveEffect | lua-5.1/lvm.c:402-405 | `R(a)` gets the value of `R(b)` |
| InstructionEffects.LoadKEffect | lua-5.1/lvm.c:406-409 | `R(a)` gets the constant that the two fields together number |
| InstructionEffects.LoadBoolEffect | lua-5.1/lvm.c:410-414 | `R(a)` gets the boolean, and the next instruction is skipped if `c` is not zero |
| InstructionEffects.LoadNilEffect | lua-5.1/lvm.c:415-421 | The registers from `a` to `b` get nil |
| InstructionEffects.GetUpvalEffect | lua-5.1/lvm.c:422-426 | `R(a)` gets the value of the upvalue |
| InstructionEffects.ArithEffect | lua-5.1/lvm.c:469-492 | Two numbers, in registers or constants, are combined in their order |
| InstructionEffects.UnaryEffects | lua-5.1/lvm.c:493-508 | `UNM` and `NOT` of `R(b)` |
| InstructionEffects.JumpEffect | lua-5.1/lvm.c:536-539 | A jump goes by what its two fields together are more than 131071 |
| InstructionEffects.CompareEffect | lua-5.1/lvm.c:540-565 | A comparison takes the jump behind it exactly if its answer is the one that `a` asks for |
| InstructionEffects.TestEffect | lua-5.1/lvm.c:566-571 | `TEST` takes the jump exactly if the truth of `R(a)` is `c` |
| InstructionEffects.TestSetEffect | lua-5.1/lvm.c:572-580 | `TESTSET` the same for `R(b)`, which it then copies |
| InstructionEffects.SetGlobalEffect | lua-5.1/lvm.c:439-445 | After `SETGLOBAL` the field of the environment has the value of `R(a)` |
| InstructionEffects.GetGlobalEffect | lua-5.1/lvm.c:427-434 | `R(a)` gets the field of the environment |
| InstructionEffects.NewTableEffect | lua-5.1/lvm.c:456-462 | `R(a)` gets the new table |
| InstructionEffects.CloseEffect | lua-5.1/lvm.c:714-717 | The upvalues of the registers from `R(a)` on are closed |
| InstructionEffects.SelfEffect | lua-5.1/lvm.c:463-468 | `SELF` gets the field to `R(a)` and the object to `R(a+1)`, also if the object was in one of them |
| InstructionEffects.ConcatEffect | lua-5.1/lvm.c:529-535 | `CONCAT` joins `R(b)` to `R(c)` in this order, leaves the result in `R(b)` and copies it to `R(a)` |
| InstructionEffects.SetTableEffect | lua-5.1/lvm.c:452-455 | After `SETTABLE` the field of `R(a)` named by the second operand has the value of the third |
| InstructionEffects.SetUpvalEffect | lua-5.1/lvm.c:446-451 | `SETUPVAL` gives the upvalue the value of `R(a)` and changes nothing else |
| InstructionEffects.FieldRoundTrip | lua-5.1/lvm.c:436-455 | A `GETTABLE` after a `SETTABLE` of the same table and key gets the value set |
| InstructionEffects.ForPrepEffect | lua-5.1/lvm.c:661-675 | `FORPREP` makes numbers of the three registers, takes the step off the first and jumps to the end of the loop, or fails |
| ForLoops.ForRuns | lua-5.1/lvm.c:649-675 | With integers, and any body that comes back with the three control registers as they were: for every number of values within the limit the body is run for `init`, `init + step`, and so on, and then it is entered with the next value if that is within the limit, and otherwise the run goes on behind the loop |
| ForLoops.ForEnds | lua-5.1/lvm.c:649-675 | With a step that is not zero the loop ends, after exactly the rounds whose values are within the limit |
| OpenUpvalues.FoundAgrees | lua-5.1/lfunc.c:53-79 | Capturing a slot refers to the cell of its variable, and to the same upvalue for all who capture the variable |
| OpenUpvalues.CloseAgrees | lua-5.1/lfunc.c:96-112 | Closing does what giving every slot from the level on a new cell does: closures keep their variables |
| OpenUpvalues.CloseExact | lua-5.1/lfunc.c:96-112 | Exactly the upvalues of slots at or above the level are closed, each with the value its slot has |
| OpenUpvalues.MoveAgrees | lua-5.1/ldo.c:126-149 | Moving the stack changes nothing that a program can see |
| OpenUpvalues.RunsAgree | lua-5.1/lvm.c:422-451 | Every run of captures, reads of slots and through closures, writes, assignments, closings and moves that is possible with a cell for each variable is possible here, and all its reads give the same values |
| OpenUpvalues.LinkBehind | lua-5.1/lfunc.c:73-76 | Linking a new upvalue behind the head leaves a ring linked in both directions |
| OpenUpvalues.Unlink | lua-5.1/lfunc.c:82-86 | Taking an upvalue out leaves such a ring of the others |
| OpenUpvalues.Thread.FindUpval | lua-5.1/lfunc.c:53-79 | The loop over the open list finds or inserts the upvalue as specified, and the ring of links stays that of the open upvalues |
| OpenUpvalues.Thread.CloseUpvals | lua-5.1/lfunc.c:96-112 | The loop closes as specified, and takes the links of what it closes out of the ring |
| OpenUpvalues.Thread.CorrectStack | lua-5.1/ldo.c:126-138 | After a move every open upvalue points to its slot again, and the top, the base and the pointers of every call keep their distance from the stack's beginning |
| StringTable.Strings.NewLStr | lua-5.1/lstring.c:75-93 | The string returned has the contents asked for, is the one already there if there is one, and is not dead; no other string changes |
| StringTable.Strings.Resize | lua-5.1/lstring.c:22-47 | Rehashing keeps the strings, each in the bucket of its hash, and does nothing during the sweep |
| StringTable.Strings.SweepNext | lua-5.1/lgc.c:570-578 | Sweeping a bucket erases its dead strings and no others; the count stays right |
| StringTable.Strings.Run | lua-5.1/lstring.c:22-93 | Through any sequence of interning, sweeping and shrinking, no two strings have equal contents, and a string that was not dead before, such as one that `NewLStr` has returned, is still there |
| StringTable.SweepOk | lua-5.1/lgc.c:405-426 | Sweeping a chain keeps contents and addresses unique and every string that is not dead |
| ExprParser.SubExprGood | lua-5.1/lparser.c:827-852 | What is parsed is a tree over exactly the tokens consumed, obeys the left, right and unary priorities, and stops at the first operator that does not bind closer than the limit; which priorities these are is pinned by the three rows of `Precedence` |
| ExprParser.ParsesTree | lua-5.1/lparser.c:809-852 | Every tree that obeys the priorities is what its tokens are parsed to |
| ExprParser.OnlyOneTree | lua-5.1/lparser.c:809-852 | Two such trees over the beginning of the same tokens, each stopping where it must, are equal |
| ExprParser.ParseInvertsPrint | lua-5.1/lparser.c:809-820 | Printing any expression with parentheses only where the priorities need them, and parsing it, gives the expression again |
| Precedence.TwoOperators | lua-5.1/lparser.c:809-820 | With the levels of section 2.5.6 of the manual given as sets of tokens: `x op1 y op2 z` parses to `(x op1 y) op2 z` if the second operator is of a lower level, or of the same level and not `..` or `^`, and to `x op1 (y op2 z)` otherwise |
| Precedence.UnaryThenBinary | lua-5.1/lparser.c:822-852 | `u x op y` parses to `(u x) op y`, but for `^`, where it is `u (x ^ y)` |
| Precedence.BinaryThenUnary | lua-5.1/lparser.c:827-852 | `x op u y` parses to `x op (u y)` for every operator |
| ExprParser.LexState.ParseExpr | lua-5.1/lparser.c:855-857 | The parser as it consumes tokens finds that tree, and fails only if there is none |
| PatternItems.TriesAreDerived | lua-5.1/lstrlib.c:364-439 | What is tried, in the order of priority, is exactly what can be derived: the ends of all matches, each with the captures that its derivation makes, and the errors |
| PatternLaws.AnswerIsDerived | lua-5.1/lstrlib.c:364-439 | There is an answer at a position exactly if something can be derived there, and then it is derived |
| PatternLaws.AnswerIsLanguage | lua-5.1/lstrlib.c:364-439 | Without back references, a nested pattern matches at a position exactly if some string there is in its language, and the end answered belongs to one |
| PatternLaws.RepetitionText | lua-5.1/lstrlib.c:413-437 | In the text of a pattern, `*` behind a class takes the most characters after which the rest has an answer, `+` the same but at least one, `-` the fewest, `?` one or else none, and without a suffix it is one |
| PatternLaws.ParenthesisText | lua-5.1/lstrlib.c:328-350 | `()` captures the position, `(` begins a capture here, `)` ends the last one that is open; more than 32 captures, or none to end, are errors |
| PatternLaws.BalanceText | lua-5.1/lstrlib.c:280-297 | `%b` and two characters go on behind the string that begins with the first and ends with the second that balances it, and only there |
| PatternLaws.FrontierText | lua-5.1/lstrlib.c:383-395 | `%f` and a set go on at the same position exactly if the character before is not in the set and the one here is |
| PatternLaws.ReferenceText | lua-5.1/lstrlib.c:353-401 | `%1` to `%9` go on behind the characters of that capture if they are there again; never after a position capture; an open or missing capture is an error |
| PatternLaws.EndText | lua-5.1/lstrlib.c:405-412 | The end of the pattern is a match with the captures so far; `$` there is one only at the end of the subject |
| PatternLaws.ClassText | lua-5.1/lstrlib.c:244-277 | What stands for one character: `.`, `%` and a letter, a set with its ranges and complement, or the character itself |
| PatternLaws.ClassLetters | lua-5.1/lstrlib.c:225-241 | A lower-case letter stands for its class and the upper-case letter for all other characters |
| PatternLaws.OtherLetters | lua-5.1/lstrlib.c:225-241 | Any other character after `%` stands for itself |
| PatternLaws.SetEndText | lua-5.1/lstrlib.c:206-217 | A set ends at the first bracket behind its first character that no `%` comes before |
| PatternLaws.OpenClassText | lua-5.1/lstrlib.c:201-222 | A class without an end is an error at every position where it is met |
| PatternCaptures.DerivesKeeps | lua-5.1/lstrlib.c:328-350 | A match goes forward, its captures lie in the subject up to its end, it makes one for each `(`, and of those there were it changes none but by closing it |
| PatternCaptures.CaptureMeans | lua-5.1/lstrlib.c:328-350 | For any items a, b and c, of which b closes what it opens: in a match of `a ( b ) c` the capture of these parentheses begins where a has come to, ends where b has come to from there, and c goes on from there to the end |
| PatternCaptures.CaptureInLanguage | lua-5.1/lstrlib.c:328-350 | Without back references, what comes before the capture is in the language of a, what is captured in that of b, and what follows in that of c |
| PatternCaptures.LanguageMatched | lua-5.1/lstrlib.c:364-439 | Whatever is in the language of nested items is matched, with some captures |
| PatternCaptures.NestedSafe | lua-5.1/lstrlib.c:184-198 | If the captures of a pattern are nested, at most 32, and referred to only when closed, no match raises an error |
| PatternMatch.FindClassEnd | lua-5.1/lstrlib.c:201-222 | The end of a class, or the error for one that is not closed |
| PatternMatch.MatchBracketClass | lua-5.1/lstrlib.c:244-264 | A character matches exactly if the set in brackets, with its ranges, escapes and complement, contains it |
| PatternMatch.MatchBalance | lua-5.1/lstrlib.c:280-297 | Counting finds the bracket that closes the first one |
| PatternMatch.MatchState.Match | lua-5.1/lstrlib.c:364-439 | Matching ends with exactly the first thing tried: a match with its end and with the captures that `init`, `len` and `level` then hold, or the error; if nothing can be tried, it fails and the captures are as they were |
| PatternMatch.MatchState.Captured | lua-5.1/lstrlib.c:328-350 | After a match of `a ( b ) c` without back references, the characters from the start to `init` are in the language of a, the `len` ones from there in that of b, and those from there to the end in that of c |
| PatternMatch.MatchState.PositionCaptured | lua-5.1/lstrlib.c:367-372 | After a match of `a () c`, `len` is the mark of a position capture and `init` is where a has ended and c begins |
| PatternMatch.MatchState.MaxExpand | lua-5.1/lstrlib.c:300-312 | The greedy loop ends with the first thing tried after the most characters, one less, and so on |
| PatternMatch.MatchState.MinExpand | lua-5.1/lstrlib.c:315-325 | The lazy loop ends with the first thing tried after no character, one, and so on |
| PatternMatch.MatchState.StartCapture | lua-5.1/lstrlib.c:328-339 | The rest is matched with one more capture, open or of the position, which is gone again if that fails; a 33rd is an error |
| PatternMatch.MatchState.EndCapture | lua-5.1/lstrlib.c:342-350 | The rest is matched with the innermost open capture closed at this position, so that it holds the characters from its beginning up to here; it is open again if that fails; with none open it is an error |
| PatternMatch.MatchState.MatchCapture | lua-5.1/lstrlib.c:353-361 | A back reference matches exactly the characters captured; a position capture matches nothing |
| PatternMatch.Find | lua-5.1/lstrlib.c:494-534 | For every pattern the search finds the match at the leftmost position that has an answer, with its first end, and returns what it captures; an error is the one met there, or that of a capture left open; with an anchor only the start is tried |
| PatternMatch.FindsInLanguage | lua-5.1/lstrlib.c:494-534 | For nested patterns without back references, nothing is found exactly if no string at any position is in the language, and the only error is that of a capture left open |
| PatternMatch.MatchState.PushCaptures | lua-5.1/lstrlib.c:465-491 | A closed capture is returned as its characters, a position counted from 1, and the whole match if there are no captures and it is asked for; an open one is an error |
| StringTokens.AddQuoted | lua-5.1/lstrlib.c:695-718 | The loop writes the quoted form |
| StringTokens.LexState.ReadString | lua-5.1/llex.c:275-328 | The loop reads what the format says, with its errors |
| StringTokens.QuotingRoundTrip | lua-5.1/llex.c:275-328 | A string written with quotes is read again as it was, up to just behind the closing quote, exactly if it holds no carriage return |
| StringTokens.LetterEscape | lua-5.1/llex.c:289-296 | The seven letters after a backslash and the control characters they stand for, and the backslash and the quotes for themselves |
| StringTokens.DecimalEscape | lua-5.1/llex.c:303-313 | One to three digits after a backslash are the decimal code of a character, and an error above 255 |
| StringTokens.LineBreakEscape | lua-5.1/llex.c:297-298 | A line break after a backslash, of one character or two different ones, is a newline |
| StringTokens.PlainCharacter | lua-5.1/llex.c:275-323 | Other characters stand for themselves up to the delimiter; a line break or the end before it is an error |
| Chunks.UndumpInvertsDump | lua-5.1/lundump.c:160-205 | Loading what was dumped gives the same tree of functions, or with stripping the tree without debug information and with the unknown source, and takes exactly its bytes |
| ChunkFormat.ChunkFormat | lua-5.1/ldump.c:36-164 | Bytes are the dump of a function exactly if they are the twelve bytes of the header and the parts of the function in their order, every number given by its bytes, lowest first, and every constant by its tag: stated without the routines that dump and load |
| ChunkErrors.CutOffRefused | lua-5.1/lundump.c:47-51 | Of a dumped chunk, every proper beginning is refused for its unexpected end |
| ChunkErrors.UndumpLocal | lua-5.1/lundump.c:160-205 | What comes behind the bytes that loading needs makes no difference to what it loads or to the error it raises |
| ChunkErrors.LoadedIsChecked | lua-5.1/lundump.c:160-177 | Every function that is loaded from any bytes, inner ones as well, has passed the checker |
| ChunkErrors.IntErrors | lua-5.1/lundump.c:60-66 | Four bytes are loaded as their value, lowest first, and refused exactly if it is negative as an `int` |
| ChunkErrors.StringErrors | lua-5.1/lundump.c:75-89 | A size of eight bytes and as many characters, without the last; the size 0 for no string |
| ChunkErrors.ConstantErrors | lua-5.1/lundump.c:99-128 | A constant with any other tag than 0, 1, 3 and 4 is refused |
| ChunkErrors.HeaderErrors | lua-5.1/lundump.c:179-186 | A header that differs in any of its twelve bytes is refused |
| ChunkIO.Zio.Read | lua-5.1/lzio.c:58-71 | Reading gives the next bytes across blocks, or all there are and the number missing |
| ChunkIO.LoadState.Load | lua-5.1/lundump.c:191-205 | The loading routines do what the format says, errors included, however the stream is divided |
| ChunkIO.DumpState.DumpChunk | lua-5.1/ldump.c:153-164 | Unless the writer fails, it has been given the whole chunk in order |
| ChunkIO.LoadDumped | lua-5.1/lundump.c:47-177 | A dumped chunk is loaded again as it was from any blocks, none of them empty |
| TableSort.Divide | lua-5.1/ltablib.c:209-236 | Both scans stop within the part, which is rearranged about the pivot |
| TableSort.AuxSort | lua-5.1/ltablib.c:184-245 | The part is sorted and rearranged, nothing outside changes, and nested calls are at most as deep as the logarithm of its size |
| TableSort.Sort | lua-5.1/ltablib.c:247-255 | The array is sorted and a permutation of what it was |
| SparseWriter.WriteSome | script/aultools.lua:2612-2636 | Writing whole sectors of a chunk before the rest has come leaves the same image |
| SparseFormat.StreamFormat | script/aultools.lua:2502-2550 | A stream is complete exactly if it is 28 bytes and chunks, whose twelve bytes of header are given by position and value: kinds 0xCAC1, 0xCAC2 and 0xCAC3, blocks and length, lowest byte first |
| SparseFormat.StreamWritten | script/aultools.lua:2502-2636 | What such a stream puts on the device: the data of each raw chunk at the sum of what the chunks before it cover, and nothing for the others |
| SparseFormat.StreamMalformed | script/aultools.lua:2524-2548 | Before a header whose kind or length is wrong, what comes before it is written and nothing else |
| SparseFormat.StreamTruncated | script/aultools.lua:2508-2523 | Of a stream that ends within a chunk, all chunks before it and what there is of raw data are written |
| SparseWriter.Parser.FesDownData | script/aultools.lua:1546-1595 | A write is sent in order in pieces of at most 65536 bytes, of which only the last is tagged as finished |
| SparseWriter.Parser.ParseHead | script/aultools.lua:2502-2550 | The header of a chunk sets what follows, and is refused exactly if its type or size is wrong |
| SparseWriter.Parser.ParseAndDown | script/aultools.lua:2484-2661 | Parsing a block keeps the image of what is written and what is to come; what is left over always fits in front of the next block |
| SparseWriter.Parser.DownBlocks | script/aultools.lua:2663-2755 | However a stream is divided into blocks, the bytes of its raw chunks get to their sectors and nothing else is written; when a malformed chunk is reported, everything before it has been written; of a stream cut short less than 8192 bytes are held back |

## Left out

- Collector: weak tables and finalizers, the pacing of steps, shrinking of stacks, `luaC_freeall` at the end of a state. The gray lists and the ring of open upvalues are sequences there; the collector frees nothing but what the sweep frees.
- Collector: the string table has no contents and a fixed number of buckets in `Mutator`; interning and resizing are modelled by themselves in `StringTable`, whose chains are sequences.
- Tables: array parts beyond 2^26 slots, which only `lua_createtable` can ask for, so the constructor and `ResizeArray` require the bound; the state after a table overflow error; keys are abstract but for integers, and equal keys are the same key.
- AddK: constants are found by equality of abstract numbers, so that 0 and -0, which are equal as keys and different as values, cannot be told apart.
- Exp2Reg: the target is the next free register; a local as the target, as in an assignment, is not modelled.
- Expression: at most 256 constants, so that all of them fit operands, and no minus on nil, true or false, for which see `MinusLiteral`.
- CodeArith: at most 256 constants; a number that waits to be folded and does not fit an operand goes to a register behind the code of the second operand, which is not modelled.
- CodeComp: the same bound, for the same reason.
- Prefix: the same bound, and no minus on nil, true or false, for which see `MinusLiteral`.
- Cond: the two bounds of `Expression`.
- ValueToNextReg: the two bounds of `Expression`.
- ReturnFunction: the two bounds of `Expression`.
- ConditionFunction: the two bounds of `Expression`.
- KeepsValue: it is necessary only for logical expressions without a repeated local; in general it depends on which values the operands can have together, as `NotNecessary` shows, which the tree does not tell.
- Code generator: globals, indexing, calls, concatenation, varargs and statements other than `return` and `if`; the number of local variables is fixed while an expression is compiled. The parser drives it by trees here and is modelled by itself in `ExprParser`.
- Interpreter: `CALL`, `TAILCALL`, `TFORLOOP`, `SETLIST`, `CLOSURE` and `VARARG` are checked, but a run is followed only up to them, and only in code without the count words of `SETLIST`; values that instructions get from tables, metamethods and other closures are arbitrary.
- Checker: debug information, and the names that `getobjname` makes of the answer for a register.
- OpenUpvalues: no collection runs meanwhile (`Mutator` has that); the open list is a sequence, and upvalues are named by numbers.
- Parser: suffixes after an operand, constructors and function bodies stand for single operands; the limit of 200 nested calls.
- Pattern matcher: `gmatch`, `gsub`, the plain search and the position to start from given by a negative number.
- Quoting: the line count and its limit, and memory limits of the buffer.
- Chunks: other type sizes and byte orders than those of a little-endian machine of 64 bits; the checker of loaded code is a parameter.
- Sort: comparisons that are no order, with which swaps may leave the range; errors they raise.
- Sparse writer: the transport and its failures, progress reports, memory as a target, whose addresses count bytes, and the check of the stream's own header, which is made before; a first block shorter than that header.
- Coroutines, metamethods, hooks, the C interface, files, the operating system and the other flashing scripts.

# A verified model of the Ki compiler's middle and back end

Ki compiles structured code through two intermediate forms. The high-level one (HIR) has nested
expressions, condition chains, `if`, `while`, `do`-`while`, `for`, `break`, `continue` and `return`. The
low-level one (LIR) is a flat list of instructions over two temporaries, an operand stack, labels and
jumps. This project models the lowering from the first to the second, the peephole optimizer, the
backend's bookkeeping of the machine stack, and a small part of the runtime library, for 64-bit integer
values.

How the parts fit together:

- `Words`, `WordAlgebra`: 64-bit wrap-around arithmetic, division rounding toward zero, bitwise operations.
- `Hir`: source terms and their meaning, written independently of the lowering (tree evaluation of flat
  operator lists, short-circuit chains, statements with fuel). Calls are events seen by an unknown
  `World`, which also decides what calls return and what they leave in registers.
- `Lir`: the instruction set and a small-step machine. RAX is the first temporary; the second one is RCX,
  which is also the fourth argument register, so a call destroys it. RDX, the third argument register, gets the
  remainder of a division, and whatever the `World` says of a multiplication by no constant: the product of unsigned
  64-bit operands is printed as a one-operand `mul` that overwrites RDX, any other is not.
- `Lowering`, `Emission`: what is emitted, as functions; and the emitter as a class whose methods append
  instructions, hand out labels and save and restore the break and continue targets.
- `Runs`, `Regions`, `Steps`, `Fragments`, `Precedence`, `CallSim`, `ExprSim`, `StmtSim`, `Labels`, `FunctionSim`:
  the simulation proofs. `ArgumentLimits`, `ExprLimits`, `Chains`: exactly which calls get their arguments, stack
  depth, how chains read. `OperatorLists`: what operator lists mean by their tokens. `Ordinary`, `OrdinaryOptimized`:
  the results for source whose calls have no unary operators as arguments.
- `StructInitializers`: the machine with a memory, and the code of struct initialisers on it.
- `Optimizing`, `Liveness`, `Rewriting`, `OptimizerProof`, `PushForwarding`, `OptimizerLimits`, `RulesFire`: the
  optimizer as a class over an array, what it means that a register is dead, whole-program preservation, the rules that
  are wrong, with the conditions under which they are right, and what rules leave of their windows.
- `Modes`, `ModeRules`, `ModePasses`, `ModeLowering`, `ModeStatements`: a type system for flat code that the optimizer
  keeps and lowered code has. It says which registers matter before each instruction and which constant operations
  may follow each other.
- `Compiler`: lowering and optimizer together, for one function; `OptimizedPrograms`: for all functions in one array.
- `FrameTracking`, `StackHeights`, `StackAgreement`, `CallingConvention`, `StructLayout`: the backend.
  `OptimizedFrames`: its bookkeeping over optimized code.
- `RuntimeHeap`, `IntText`, `ParsedText`: the runtime. `ConditionParser`, `TripCount`: how chains and ranges reach the
  HIR.

Main results:

- `FunctionSim.FunctionCorrect`: compiled code halts exactly when the source terminates, with the same
  returned value or fault, the same locals and the same calls with the same arguments, for every function
  whose breaks are in loops and whose calls meet `Hir.ArgumentsOk`; and `ArgumentLimits.ArgumentsSurvive`: that
  condition on a call holds if and only if its arguments arrive in every world, for every list of that shape.
- `OperatorLists.ListComputes`: the code of every flat operator list computes what a grammar over the tokens reads.
- `Ordinary.OrdinaryCorrect`, `OrdinaryOptimized.OrdinaryOptimizedCorrect`: the results on whole functions with
  conditions that only look at the form of the source.
- `OptimizerProof.OptimizerKeepsBehaviour`: three passes keep every run of every program with jumps, when each
  rewrite made is safe and right where it is made. What the optimizer learns from data types is a verdict of its own
  at every pass and index (`Optimizing.Oracle`), and the theorem is for all of them.
- `ModePasses.TypedIsSafe` and `ModeStatements.LoweredIsTyped`: in typed code every rewrite is safe, in all three
  passes, and lowered functions are typed. `Compiler.TameCorrect` puts everything together under conditions on the
  source: optimized code ends as the source does, whatever types the operands have, when calls take at most six
  arguments of which none can be overwritten, every `for` has an initial value or a counter wider than one byte, and
  operators stand next to constants only as `ModeLowering.ArithmeticOk` says (sums with constants, differences
  followed by sums, one bitwise operator with itself, any other operator once, no division by a power of two), with
  constants that together fit a double.
- `OptimizedPrograms.OptimizedSeparately`: optimizing the array of a whole program does to every function what
  optimizing it alone does, so `ProgramCorrect` has the same for each function of a program.
- `StructInitializers.MembersReadBack`: the code of a struct initialiser leaves every member its own value, for
  literals, variables, operator lists, conditions and calls in any order.
- `StackAgreement.StackAgrees`: the tracked stack height is right at every jump exactly when no break or continue
  skips a block that reserved stack; and `OptimizedFrames.OptimizedAgrees`: so it is for the code the optimizer makes.
- `RuntimeHeap.CleanRunsAreSound`: over every run of allocations and frees in any order, blocks stay disjoint exactly
  when each allocation finds a gap or a free run at the pointer.

What the code does against what it is meant to do, each with a proof and with the condition under which it is right:

- A constant `%` is folded to the quotient (`OptimizerLimits.ModFoldIsWrong`; right exactly as in `ModFoldRight`).
- Two operators with constants are folded into the first: among `+`, `-` and `*`, among the bitwise operators and
  among the shifts `PairFoldRight` says exactly when that is right for every operand. It is for `+` after `+` or `-`,
  `*` after `*` and a bitwise operator after itself; for two shifts, or any other pair, only for special constants
  (`UnlikeFoldIsWrong` is an example). So `x * 2 * 3`, whose first operator becomes a shift, is wrong
  (`ProductFoldIsWrong`).
- A division by a power of two becomes a shift that keeps the sign, right exactly for dividends that are not negative
  or are multiples (`WordAlgebra.DivIsShift`, with `DivShiftIsWrong` as an example), and for unsigned operands exactly
  for those without the highest bit (`UnsignedDivIsShift`).
- How far these rules reach depends on data types: a constant comes to stand next to its operator where the two have
  types of one size (src/ir/optimizer.c:206-209). Literals that fit 32 bits are typed so
  (src/frontend/parser.c:1106-1112), so with a 64-bit operand only larger literals are concerned.
- `for x = a..b` with an existing variable starts from 0: right exactly when the variable is declared there or the
  start evaluates to 0 (`TripCount.RangeStart`, `StartShows`). When the counter is one byte wide the optimizer turns
  that 0 into a store of nothing, since the missing value counts as a byte too (src/ir/lir.c:17,
  src/ir/optimizer.c:206-209); that is right exactly when the variable reads 0 already
  (`OptimizerLimits.EmptyStoreRight`). For wider counters no rule touches it, and `Compiler.TameCorrect` covers such
  loops.
- A break out of a nested block leaves rsp lower than the tracker believes when the enclosing block of the loop
  has locals (`StackAgreement.NestedBreakDisagrees`), so the function may return with `pop rbp` at the wrong height.
- A bare boolean after a comparison, as in `x == 1 && b`, breaks the shape the lowering steps through
  (`ConditionParser.ParsedShape`).
- The code printed for the complement operator never computes a complement (`ExprLimits.NotIsNeverComplement`).
- `f(-g(), 2)` passes a destroyed second argument (`ExprLimits.UnaryCallClobbers`), and so may `f(-(a * 3), y, z)` a
  third one. Arguments survive exactly when each one that is not treated as complex spares the registers filled before
  it, and complex stack arguments come last (`ArgumentLimits.ArgumentsSurvive`); a plain stack argument after a complex
  one changes places with it.
- A struct member whose value is a unary operator, such as `-a`, or a cast of a plain operand is stored at the address
  that is its own value (`StructInitializers.RunMisplacedMember`); that is right exactly when the value is the member's
  address (`MisplacedUnless`).
- Printing the least 64-bit integer in base 2 needs one byte more than is allocated (`IntText.TextFits`).
- Frees out of order make blocks overlap (`RuntimeHeap.OutOfOrderOverlaps`), exactly where an allocation is not clean
  (`PlaceIsFree`).

## Model

| member | source | states |
|---|---|---|
| Hir.SplitPoint | src/ir/lir.c:116-127 | a flat operator list splits at its rightmost operator of the lowest of three precedences |
| Lowering.Keep | src/ir/lir.c:158-176 | exactly the delayed operators that bind less tightly than the arriving one stay |
| Emission.Emitter.constructor | src/ir/lir.c:990-993 | an emitter starts with no code, no labels and break and continue targets 0 |
| Emission.Emitter.PushInstruction | src/ir/lir.c:50-58 | one instruction is appended, the rest of the code stays |
| Emission.Emitter.EmitMathOperation | src/ir/lir.c:144-149 | an operator is performed on the two topmost operands |
| Emission.Emitter.PerformDelayed | src/ir/lir.c:158-176 | delayed operators at least as tight as the new one are performed from the last down, the others are kept in order |
| Emission.Emitter.EmitMath | src/ir/lir.c:153-183 | the loop over a flat list appends the code that `ExprSim.SimExpr` shows to compute the list's tree |
| Emission.Emitter.EmitComparison | src/ir/lir.c:316-336 | both operands, the comparison and the set instruction are appended |
| Emission.Emitter.EmitJoin | src/ir/lir.c:340-354 | a comparison is joined to the value so far and jumps on the next chain operator |
| Emission.Emitter.EmitCondition | src/ir/lir.c:298-369 | a chain's code with its true, false and done labels is appended; a single comparison has no jumps |
| Emission.Emitter.EmitComplexArguments | src/ir/lir.c:185-233 | complex arguments are evaluated right to left onto the operand stack |
| Emission.Emitter.EmitStoreComplex | src/ir/lir.c:185-233 | their values are popped into place left to right |
| Emission.Emitter.EmitPlainArguments | src/ir/lir.c:251-281 | the other arguments are evaluated right to left into their places with the right count of integers before them |
| Emission.Emitter.EmitCall | src/ir/lir.c:235-282 | complex arguments, their stores, the other arguments and the call, in this order |
| Emission.Emitter.EmitExpr | src/ir/lir.c:550-575 | every expression appends its code and yields the operand that holds its value |
| Emission.Emitter.EmitBlock | src/ir/lir.c:577-584 | a block is bracketed, and the break and continue targets are as before |
| Emission.Emitter.EmitIf | src/ir/lir.c:811-836 | the test, both branches and their labels; the else part only when it is not empty |
| Emission.Emitter.EmitWhile | src/ir/lir.c:838-870 | both loop forms, with the enclosing break and continue targets restored |
| Emission.Emitter.EmitFor | src/ir/lir.c:872-926 | the loop in its own block, `continue` going to the advance label, targets restored |
| Emission.Emitter.EmitKeyword | src/ir/lir.c:928-942 | break and continue end the innermost block conditionally and jump to the current target |
| Emission.Emitter.EmitStmt | src/ir/lir.c:944-988 | every statement appends its code and leaves the targets as they were |
| Emission.Emitter.EmitParameters | src/ir/lir.c:599-615 | parameters are stored in order from registers, then from the caller's stack |
| Emission.Emitter.EmitFunction | src/ir/lir.c:586-621 | a function's code with labels counted from 0 again |
| Emission.Emitter.EmitProgram | src/ir/lir.c:990-1000 | all functions one after the other, then EOF |
| Precedence.LoopSplits | src/ir/lir.c:153-183 | the code of a list is the code of its two halves around the split, then the operator |
| Precedence.DelayedStaysSmall | src/ir/lir.c:158-182 | delayed operators have strictly increasing precedence, so there are at most three |
| OperatorLists.ListMeans | src/ir/lir.c:112-127 | every flat list means what a grammar over the tokens reads: products inside sums inside shifts and bitwise operators, each level grouped to the left |
| Fragments.RunJoin | src/ir/lir.c:340-354 | a join leaves by the label the value decides, at the starting height, or goes on with the value on the stack |
| ExprSim.SimMathExpr | src/ir/lir.c:153-183 | a list's code leaves in the first temporary the value of the tree split at the rightmost loosest operator, left operands first |
| OperatorLists.ListComputes | src/ir/lir.c:153-183 | the code of every list computes what that grammar reads, left operands first, with the same calls and up to the same fault |
| OperatorLists.ThreeOperands | src/ir/lir.c:116-127 | for all words and operators a o1 b o2 c is a o1 (b o2 c) if o2 is a product and o1 is none, or o2 a sum and o1 a shift or bitwise, and (a o1 b) o2 c otherwise, faults included |
| OperatorLists.ThreeOperandsRun | src/ir/lir.c:153-183 | and that is what its code computes from every state |
| ExprSim.SimChain | src/ir/lir.c:316-368 | every path through a chain meets at its end with the right-nested short-circuit value and the stack at its start |
| ExprSim.SimCondition | src/ir/lir.c:298-369 | a condition evaluates comparisons left to right only as far as needed and yields the chain's value |
| ExprSim.SimOthers | src/ir/lir.c:251-281 | in the pass over the arguments that are not complex each place gets its argument, and keeps it as far as the arguments after it spare its register |
| CallSim.RunCall | src/ir/lir.c:279-282 | a call sees what is in the argument registers and on the stack from its top down, and takes its stack arguments off |
| ExprSim.SimCallMade | src/ir/lir.c:235-282 | for any argument list, accepted or not, the call is made with exactly what the registers and the stack then hold |
| CallSim.ArgumentsArrive | src/ir/lir.c:185-282 | with arguments as `Hir.ArgumentsOk` wants them these are the arguments' values in order |
| ArgumentLimits.ArgumentsSurvive | src/ir/lir.c:36-48 | the arguments of a call arrive, in every world and for every list of that shape, if and only if each one that is not complex spares the registers filled before it and complex stack arguments come last |
| Ordinary.DirectArguments | src/ir/lir.c:36-48 | literals, variables, operator lists, conditions, calls and casts of these never destroy one another, six or fewer in any order, more when no literal or variable is behind one of the others on the stack |
| Ordinary.DirectArrive | src/ir/lir.c:185-282 | so a call with such arguments is made with their values, in every world and from every state |
| Ordinary.SimpleCall | src/ir/lir.c:251-282 | a call with literals and variables loads each and puts it in its place, from the last to the first, and nothing else |
| ExprSim.SimCall | src/ir/lir.c:235-282 | nested calls do not destroy arguments: the call event carries each argument's own value |
| ExprSim.SimExpr | src/ir/lir.c:550-575 | running an expression's code gives its value, its calls in order and its faults, never pops below its start and stays within its slots |
| StmtSim.SimAll | src/ir/lir.c:577-584 | statements in sequence end where the first that does not end normally leaves |
| StmtSim.SimLoop | src/ir/lir.c:838-926 | loops of all three forms turn as their source does, with breaks and continues at the right labels |
| StmtSim.SimStmt | src/ir/lir.c:791-942 | each statement's run reaches the exit its source reaches (fall-through, break, continue, return or fault) with the same locals and calls and the stack at its start |
| Labels.ExprLabels | src/ir/lir.c:298-369 | labels inside expressions are new, defined once, and all jumps stay inside |
| Labels.StmtLabels | src/ir/lir.c:811-942 | a statement defines new labels once each and jumps only to them or to the enclosing loop's |
| FunctionSim.FunctionLabels | src/ir/lir.c:586-621 | in a whole function every label is defined at most once and every jump target exactly once |
| FunctionSim.SimParameters | src/ir/lir.c:599-615 | before the body runs every parameter variable holds its argument, from a register or from the caller's stack |
| FunctionSim.EndsInReturn | src/ir/hir.c:735-740 | a body that ends in a return never falls off its end |
| FunctionSim.FunctionRuns | src/ir/lir.c:586-629 | with any fuel, the compiled function has ended like the source or still runs after at least that many steps |
| FunctionSim.FunctionCorrect | src/ir/lir.c:586-629 | compiled code halts if and only if the source terminates, and then with the same return value or fault, locals and calls |
| Ordinary.OrdinaryCorrect | src/ir/lir.c:586-629 | so the compiled code of every function all of whose calls are like that, and whose breaks are in loops, ends as its source |
| ExprLimits.StackByDepth | src/ir/lir.c:153-183 | an expression without calls nested d levels deep takes at most 3d + 1 operand slots and never goes below its start |
| ExprLimits.UnaryCallClobbers | src/ir/lir.c:36-48 | an example: a unary operator over a call is not treated as complex, and the argument after it is lost |
| ExprLimits.NotIsNeverComplement | src/backend/backends/linux_x86_64/backend.c:1274-1279 | the negation of the low byte that is emitted for NOT is the complement of no word |
| Chains.OrsFirstAgree | src/ir/lir.c:298-369 | with no && before a \|\| the code's reading is the usual one, with the same calls and faults |
| Chains.ReadingsAgree | src/ir/lir.c:298-369 | the two readings agree on all truth values if and only if no && stands before a \|\| |
| Optimizing.PeekAt | src/ir/optimizer.c:63-73 | a peek never sees a NOP |
| Optimizing.Apart | src/ir/optimizer.c:63-73 | peeked instructions are neighbours in the program without its NOPs; the third may be the second again |
| Optimizing.Optimizer.PeekFrom | src/ir/optimizer.c:63-73 | the recursive peek finds that instruction |
| Optimizing.Optimizer.OptimizeStackOperations | src/ir/optimizer.c:75-146 | the array is rewritten in place as the first matching stack rule says |
| Optimizing.Optimizer.OptimizeLoadsAndStores | src/ir/optimizer.c:164-223 | the same for the load and store rules |
| Optimizing.Optimizer.OptimizeMathOperations | src/ir/optimizer.c:285-380 | the same for the math rules |
| Optimizing.Optimizer.OptimizeConstantFolding | src/ir/optimizer.c:403-467 | the same for the folding rules |
| Optimizing.Optimizer.DoPrimaryPass | src/ir/optimizer.c:481-488 | one pass tries the four groups in order at every index |
| Optimizing.Optimizer.Optimize | src/ir/optimizer.c:54-59 | three passes |
| Optimizing.ThreePasses | src/ir/optimizer.c:54-59 | each pass works on what the one before left, and there are three |
| RulesFire.StackRulesFire | src/ir/optimizer.c:75-162 | what the stack rules leave of the windows they are for |
| RulesFire.LoadRulesFire | src/ir/optimizer.c:164-223 | the same for the load and store rules |
| RulesFire.MathRulesFire | src/ir/optimizer.c:285-380 | the same for the math rules |
| RulesFire.FoldRulesFire | src/ir/optimizer.c:403-467 | the same for the folding rules |
| Optimizing.ShiftFor | src/ir/optimizer.c:327-348 | the shift of a power of two is its logarithm, below 64 |
| Optimizing.PowerOfTwoMeans | src/ir/optimizer.c:32-34 | the test finds exactly the powers of two |
| WordAlgebra.MulIsShift | src/ir/optimizer.c:327-348 | multiplying by a constant whose unsigned reading is 2^k is shifting left by k, for every word |
| WordAlgebra.DivIsShift | src/ir/optimizer.c:327-348 | dividing by a constant read as 2^k, up to 2^63 for the least word, is shifting right if and only if the dividend is not negative, or a multiple of a positive constant |
| WordAlgebra.UnsignedDivIsShift | src/ir/optimizer.c:327-348 | for unsigned operands the printed shift is the quotient if and only if the dividend's highest bit is 0 |
| WordAlgebra.OperationsCombine | src/ir/optimizer.c:429-466 | add, mul, and, or and xor with two constants are one operation with the two combined |
| WordAlgebra.DivisionTruncates | src/backend/backends/linux_x86_64/backend.c:897-899 | quotients round toward zero, remainders have the dividend's sign and are smaller than the divisor |
| WordAlgebra.FaultsExactly | src/backend/backends/linux_x86_64/backend.c:897-899 | a division faults if and only if there is no quotient or it does not fit |
| WordAlgebra.BitwiseAt | src/backend/backends/linux_x86_64/backend.c:919-936 | and, or and xor at every bit |
| WordAlgebra.CountIsLowBits | src/backend/backends/linux_x86_64/backend.c:937-953 | shifts look at the six lowest bits of their count |
| Liveness.DeadRuns | src/ir/optimizer.c:206-228 | two runs that differ in a register that is overwritten before use differ in nothing else at any step |
| Rewriting.StretchReplaced | src/ir/optimizer.c:75-467 | a stretch without labels may be replaced by one that does the same up to dead registers, in any program with jumps |
| OptimizerProof.CancelKeeps | src/ir/optimizer.c:78-95 | push r, pop r may be removed |
| OptimizerProof.MoveKeeps | src/ir/optimizer.c:97-115 | push x, pop d is a move from x to d |
| OptimizerProof.ForwardKeeps | src/ir/optimizer.c:117-131 | a loaded value may be taken from where it was when its register is dead afterwards |
| OptimizerProof.MoveUpKeeps | src/ir/optimizer.c:133-148 | a pop may move up over an independent move |
| OptimizerProof.PopIntoKeeps | src/ir/optimizer.c:150-161 | a pop may go straight into its destination when the register is dead afterwards |
| OptimizerProof.OmitSelfMove | src/ir/optimizer.c:167-178 | a load of a register into itself may be removed |
| OptimizerProof.OmitNeutral | src/ir/optimizer.c:307-325 | adding, subtracting and shifting by 0, multiplying and dividing by 1 may be removed |
| OptimizerProof.MulShiftKeeps | src/ir/optimizer.c:327-348 | a multiplication by a power of two may become a shift |
| OptimizerProof.SwapKeeps | src/ir/optimizer.c:350-368 | the operands of a commutative operation may change places when the second register is dead afterwards |
| OptimizerProof.FoldLoadKeeps | src/ir/optimizer.c:406-427 | a loaded constant may be combined with the constant operation after it, where the fold is exact |
| OptimizerProof.FoldMathKeeps | src/ir/optimizer.c:429-466 | two operations with constants may be combined, where the first applied to both constants combines them and the fold is exact |
| OptimizerProof.StackOperationsKeep | src/ir/optimizer.c:75-162 | whatever stack rule fires with its side condition keeps the program's behaviour |
| OptimizerProof.LoadsAndStoresKeep | src/ir/optimizer.c:164-223 | the same for the load and store rules |
| OptimizerProof.MathOperationsKeep | src/ir/optimizer.c:285-380 | the same for the math rules |
| OptimizerProof.ConstantFoldingKeeps | src/ir/optimizer.c:403-467 | the same for the folding rules |
| OptimizerProof.MultiplyForwarded | src/ir/optimizer.c:198-228 | a multiplication that takes its operand from where it was loaded from leaves nothing else different than the register loaded and, for a constant, RDX, where both are dead |
| OptimizerProof.OptimizerKeepsBehaviour | src/ir/optimizer.c:54-59 | three passes keep every run of every program: same calls, same end, or both run on; with any verdict on the types of operands at each pass and index |
| OptimizerLimits.ModFoldRight | src/ir/optimizer.c:390 | for all signs: the quotient folded for a remainder is right if and only if, for y > 0, the dividend is a multiple of y + 1 less than y times it, and for y < 0 it is 0 |
| OptimizerLimits.PairFoldRight | src/ir/optimizer.c:385-466 | for each pair among addition, subtraction and multiplication, among the bitwise operations, and among the shifts: when the fold into the first operator is right for every operand, and only then |
| OptimizerLimits.SubFoldRight | src/ir/optimizer.c:429-466 | folding two subtractions is right if and only if the second constant is 0 |
| OptimizerLimits.ModFoldIsWrong | src/ir/optimizer.c:390 | folding 7 % 2 changes what a program returns |
| OptimizerLimits.UnlikeFoldIsWrong | src/ir/optimizer.c:429-466 | folding an addition with a multiplication changes what a program returns |
| OptimizerLimits.ProductFoldIsWrong | src/ir/optimizer.c:327-466 | an operand multiplied by 2 and by 3 is shifted left by 8 instead |
| OptimizerLimits.DivShiftIsWrong | src/ir/optimizer.c:327-348 | shifting -7 instead of dividing it changes what a program returns |
| OptimizerLimits.EmptyStoreRight | src/ir/optimizer.c:206-228 | forwarding an empty operand into the store of a variable leaves all variables as they were to be, in any program and state, if and only if that variable reads 0 already |
| OptimizerLimits.EmptyStoreIsWrong | src/ir/optimizer.c:206-228 | a program where it does not, if the empty operand counts as of the variable's type or size |
| PushForwarding.FunctionPushesKill | src/ir/lir.c:144-183 | in every lowered function the first temporary is overwritten before it is read after each push |
| PushForwarding.PushWindowForwards | src/ir/optimizer.c:117-131 | so the side condition of the load-push rule holds wherever it fires |
| PushForwarding.ForwardingStaysKilled | src/ir/optimizer.c:117-131 | and still holds everywhere after it has fired |
| PushForwarding.PushForwardingIsSafe | src/ir/optimizer.c:117-131 | firing the rule at any list of places in any lowered function changes no behaviour |
| Modes.ModeDead | src/ir/optimizer.c:117-131 | in typed code a register that does not matter in a state is overwritten before it is used on every run from there |
| ModeRules.StackRule | src/ir/optimizer.c:75-162 | a stack rule tried on typed code is safe and leaves it typed, with constants no larger together |
| ModeRules.LoadStoreRule | src/ir/optimizer.c:164-223 | the same for the load and store rules |
| ModeRules.MathRule | src/ir/optimizer.c:285-380 | the same for the math rules, which are right where arithmetic is typed |
| ModeRules.FoldRule | src/ir/optimizer.c:403-467 | the same for the folding rules |
| ModeRules.EmptyStays | src/ir/optimizer.c:206-228 | in typed code the empty operand of a `for` without initial value is read by nothing but the store to one of the counters named |
| ModePasses.StackPairs | src/ir/optimizer.c:75-115 | after the stack rules are tried at an index no push up to there has its pop right behind it |
| ModePasses.TypedIsSafe | src/ir/optimizer.c:54-61 | every rewrite of three passes over typed code is safe, and right if the arithmetic is typed and the constants fit a double together |
| ModeLowering.ListFlows | src/ir/lir.c:153-183 | the code of an operator list is typed: it leaves one value, of the kind of the list's tree |
| ModeLowering.ExprFlows | src/ir/lir.c:550-575 | the code of every expression is typed: it needs no register from before and leaves its value where its operand says, with its kind |
| ModeLowering.CallFlows | src/ir/lir.c:235-282 | the code of a call is typed: every argument register the call reads is filled and none is filled twice |
| ModeStatements.StmtFlows | src/ir/lir.c:791-942 | no register matters between two statements, at every label and jump too |
| ModeStatements.LoweredIsTyped | src/ir/lir.c:586-621 | the code of every function whose statements can be typed is typed |
| Compiler.CompilerCorrect | src/compiler.c:40-50 | optimized code halts if and only if the source terminates, and ends as it does, where every rewrite made is safe and right |
| Compiler.TameIsSafe | src/compiler.c:40-50 | with calls and loops as `Tame` wants them every rewrite the optimizer makes of a function is safe, whatever types its operands have at each place, as long as no counter without an initial value has the type or size of the empty operand |
| Compiler.TameIsExact | src/compiler.c:40-50 | with operators next to constants as `TameArithmetic` wants them and constants that fit a double together every rewrite is right too |
| Compiler.TameCorrect | src/compiler.c:40-50 | for such functions optimized code halts if and only if the source terminates, and ends as it does |
| Compiler.MixedIsTame | src/compiler.c:40-50 | an example that mixes arithmetic, calls and loops with and without an initial value |
| OrdinaryOptimized.OrdinaryOptimizedCorrect | src/compiler.c:40-50 | the same for optimized code where calls have six such arguments at most and every operator list either has no constant operand or is a sum |
| OptimizedPrograms.OptimizedApart | src/ir/optimizer.c:63-73 | code that begins and ends a function is optimized independently of whatever follows it in the array, and what follows independently of it, by all passes |
| OptimizedPrograms.OptimizedSeparately | src/ir/optimizer.c:54-59 | the optimized array of a program is the functions optimized one by one, and the final EOF |
| OptimizedPrograms.ProgramCorrect | src/compiler.c:40-50 | each function in the optimized array halts if and only if its source terminates, and ends as it does, whatever the other functions are, if it meets the conditions of `Compiler.TameCorrect` itself |
| FrameTracking.State.PushStackCache | src/backend/backends/linux_x86_64/backend_utilities.c:47-51 | both sizes are saved for a block |
| FrameTracking.State.PopStackCache | src/backend/backends/linux_x86_64/backend_utilities.c:53-57 | and given back |
| FrameTracking.State.AlterStack | src/backend/backends/linux_x86_64/backend_utilities.c:59-71 | used and, if asked, reserved change by the bytes |
| FrameTracking.State.AllocateLocalVariable | src/backend/backends/linux_x86_64/backend_utilities.c:109-133 | the byte-by-byte loop reserves up to the next multiple of 16 and no further, and only when needed |
| FrameTracking.State.EmitEndBlock | src/backend/backends/linux_x86_64/backend.c:1204-1230 | both ends give back the block's bytes; the conditional one keeps the block open with all reserved bytes used |
| FrameTracking.State.EmitCall | src/backend/backends/linux_x86_64/backend.c:1095-1103 | the bytes of the stack arguments are given back |
| FrameTracking.ApplySound | src/backend/backends/linux_x86_64/backend.c:1199-1230 | each block start, end, allocation, push and pop keeps the frame sound |
| FrameTracking.FramesAreSound | src/backend/backends/linux_x86_64/backend_utilities.c:47-133 | after any well-nested sequence locals of open blocks are disjoint inside the reserved frame, temporaries lie below them, and reserved is a multiple of 16 between statements |
| StackHeights.EmitInstruction | src/backend/backends/linux_x86_64/backend.c:968-1103 | the tracker's state and the change of rsp for every instruction that touches the stack |
| StackHeights.FirstStore | src/backend/backends/linux_x86_64/backend_utilities.c:109-133 | a local gets eight bytes of its own right below everything used, at its first store only |
| StackHeights.ExprFlat | src/ir/lir.c:550-575 | expressions of any form, calls with stack arguments included, leave tracked and real height as they were, at every inner jump too |
| StackHeights.CallFlat | src/ir/lir.c:235-282 | pushes for stack arguments and what the call gives back cancel out for any number of arguments |
| StackAgreement.StmtSegment | src/ir/lir.c:791-942 | a statement's jumps are at the right height if and only if its breaks and continues skip nothing reserved |
| StackAgreement.StackAgrees | src/backend/backends/linux_x86_64/backend.c:1199-1230 | tracked and real height agree on every edge of a function if and only if its breaks and continues leave from blocks opened at the height of their target |
| StackAgreement.RunsAgree | src/backend/backends/linux_x86_64/backend.c:699-723 | in every run of such a function rsp is as far below rbp as tracked wherever no jump is pending, so a return that pops rbp alone finds rsp at rbp |
| StackAgreement.DirectAgrees | src/ir/lir.c:928-942 | functions whose breaks and continues stand directly in their loop's block always agree |
| StackAgreement.NestedBreakDisagrees | src/backend/backends/linux_x86_64/backend.c:1204-1230 | a break nested in an if, in a loop body with a local, does not agree |
| OptimizedFrames.StackSame | src/ir/optimizer.c:75-162 | a stack rule tried on typed code leaves the tracked and the real height at every label and jump as they were |
| OptimizedFrames.OptimizedAgrees | src/compiler.c:40-50 | tracked and real height agree on every edge of the optimized code of a function if and only if its breaks and continues leave from blocks opened at the height of their target |
| OptimizedFrames.OptimizedRunsAgree | src/backend/backends/linux_x86_64/backend.c:699-723 | in every run of such optimized code rsp is as far below rbp as tracked wherever no jump is pending |
| CallingConvention.RegistersDistinct | src/backend/backends/linux_x86_64/backend_utilities.c:156-213 | argument registers are RDI, RSI, RDX, RCX, R8 and R9, as section 3.2.3 of the System V AMD64 psABI orders them; only the second temporary shares one, with argument 3, and remainders go to that of argument 2 |
| CallingConvention.Machine.PassArguments | src/ir/lir.c:251-281 | the loop from the last argument down fills registers and pushes, leaving argument i at its distance from rsp |
| CallingConvention.Machine.CallAndReturn | src/backend/backends/linux_x86_64/backend.c:172-191 | for any number of arguments the callee reads argument i as parameter i, and the caller's stack pointers and frame are restored |
| StructLayout.StructSize | src/backend/backends/linux_x86_64/backend.c:39-72 | the size loop computes the common layout's size |
| StructLayout.MemberOffset | src/ir/lir.c:509-536 | the offset loop stops at the first member of the name, at that member's place in the same layout |
| StructLayout.MembersFit | src/ir/lir.c:509-536 | members are disjoint, inside the struct, and aligned to their element unless packed |
| StructLayout.NoMorePadding | src/backend/backends/linux_x86_64/backend.c:39-72 | each member starts at the first multiple of its element size behind the one before, or right there when packed, and the size is the first multiple of 4 |
| StructLayout.ElementsFit | src/backend/backends/linux_x86_64/backend.c:49-64 | all elements of an array member, and one of any other, lie before what follows |
| StructLayout.SizeHoldsValues | src/backend/backends/linux_x86_64/backend.c:1360-1373 | an integer type has as many bytes as its range of values needs |
| StructLayout.ArrayElementsAligned | src/backend/backends/linux_x86_64/backend.c:66-69 | in arrays of structs members are aligned if and only if the size, a multiple of 4 only, allows it |
| StructLayout.InitialisedReads | src/ir/lir.c:509-536 | after writes to members in any order, reading a member gives the bytes last written to it |
| StructLayout.InitialisedOutside | src/ir/lir.c:509-536 | and no byte outside the struct changes |
| StructInitializers.SimInitializer | src/ir/lir.c:633-670 | the code of an initialiser, with the address built in the first temporary and saved on the stack across complex values, assigns each member the value its expression has, in the order written, up to the first fault |
| StructInitializers.InitializerLabels | src/ir/lir.c:633-670 | labels in an initialiser are new, defined once, and no jump leaves it |
| StructInitializers.MembersReadBack | src/ir/lir.c:633-670 | after it every member holds its own value, and no byte outside the struct has changed |
| StructInitializers.ReadsBack | src/ir/lir.c:633-670 | and reads as the value assigned if and only if the member is wide enough for it |
| Ordinary.AcceptedMember | src/ir/lir.c:633-670 | every literal, variable, operator list, condition or call whose own calls are accepted is a value the initialiser handles |
| StructInitializers.RunMisplacedMember | src/ir/lir.c:660-664 | a member whose value is a unary operator or a cast of a plain operand is stored at that value instead of the member's address |
| StructInitializers.MisplacedUnless | src/ir/lir.c:660-664 | which is right for every memory if and only if the value is that address |
| RuntimeHeap.Runtime.SetSizes | lib/basic.ki:842-848 | the tags of a range are set, the others stay |
| RuntimeHeap.Runtime.FindEmptySpace | lib/basic.ki:915-939 | the nested loops find what the search means |
| RuntimeHeap.SearchMeans | lib/basic.ki:915-939 | in any state a found gap is the lowest fully free run that starts before the pointer, and none is missed |
| RuntimeHeap.Runtime.Alloc | lib/basic.ki:943-957 | the block is tagged where it goes and the pointer follows it |
| RuntimeHeap.Runtime.Free | lib/basic.ki:961-965 | the block's tags are cleared, the pointer stays |
| RuntimeHeap.LifoIsSafe | lib/basic.ki:943-965 | over every last-in-first-out run that fits, live blocks tile the start of the heap with their own tags and the next one lands exactly on top |
| RuntimeHeap.PlaceIsFree | lib/basic.ki:943-957 | in every state a block covers only free bytes if and only if the search finds a gap or there is a free run at the pointer |
| RuntimeHeap.CleanRunsAreSound | lib/basic.ki:943-965 | over every run, with frees in any order, live blocks stay disjoint and rightly tagged, as they are at the start (`FreshIsSound`), if and only if every allocation made is like that |
| RuntimeHeap.OutOfOrderOverlaps | lib/basic.ki:954 | an example: out of order a block can be placed over a live one |
| IntText.KiString.constructor | lib/basic.ki:141-153 | 16 is doubled until it suffices, and one byte more is allocated |
| IntText.CapacityMeans | lib/basic.ki:141-153 | small strings get 16 bytes, larger ones 16 doubled as often as needed and no more |
| IntText.KiString.Reverse | lib/basic.ki:541-558 | the characters are reversed in place, the rest of the buffer stays |
| IntText.IntToString | lib/basic.ki:584-616 | the string holds sign and digits, most significant first, and a terminator |
| IntText.TextFits | lib/basic.ki:584-616 | sign, digits and terminator fit the 65 bytes if and only if it is not the least integer in base 2 |
| IntText.StringToInt | lib/basic.ki:645-697 | the loops compute the value of the parsed text with its prefix, suffix and sign |
| ParsedText.NumberMeans | lib/basic.ki:660-697 | digits with or without a sign and with the letter of base 8 or 16 mean their sum at their places, wrapped around; leading zeros do no harm |
| ParsedText.HexMeans | lib/basic.ki:618-643 | behind 0x digits from 0 to 9, a to f and A to F mean their sum at their places in base 16, wrapped around; later letters their low four bits |
| ParsedText.HexFails | lib/basic.ki:618-643 | and any other character gives -1 |
| ParsedText.SpaceIsNothing | lib/basic.ki:648-654 | white space before any text changes nothing |
| ParsedText.PlusIsNothing | lib/basic.ki:674-679 | nor does a plus before a number without prefix |
| ParsedText.PrintedMeans | lib/basic.ki:584-616 | a printed number in any base up to 49 is its digits at their places, behind a minus when it is negative |
| IntText.CapitalsDoNotCount | lib/basic.ki:765-771 | prefixes and suffixes are recognised in small letters only |
| IntText.PrintParse | lib/basic.ki:584-697 | parsing a printed integer gives it back, for every 64-bit integer, in base 10 and with suffixes in 8 and 16 |
| ParsedText.PrintedThenParsed | lib/basic.ki:584-697 | also with white space before it, or a plus when it is not negative |
| ConditionParser.Parser.PushSimpleComparison | src/frontend/parser.c:334-353 | a comparison with true is appended if and only if the last value counts as a bare boolean |
| ConditionParser.Parser.ParseCondition | src/frontend/parser.c:355-402 | the loop builds the flat list of a condition |
| ConditionParser.ParsedShape | src/frontend/parser.c:355-402 | the list has the alternating shape of length 4k + 3 if and only if no bare boolean follows a comparison |
| ConditionParser.ParsedMeans | src/frontend/parser.c:355-402 | for those chains the steps of four read every comparison and chain operator in order, bare booleans compared with true |
| ConditionParser.ParsedValue | src/frontend/parser.c:334-402 | the condition read off the list has the value of the chain as written, bare terms being their own values and terms read as far as needed, with the same calls and faults |
| ConditionParser.BareIsItself | src/frontend/parser.c:346-348 | a bare boolean alone is its own condition |
| TripCount.RangeRuns | src/ir/hir.c:910-963 | with bound, step and counter left alone by the body, the loop runs the span over the step as written times, or over 1, rounded up, in both directions, with and without the bound |
| TripCount.StepsAre | src/ir/hir.c:940-945 | that is ceil((b - a) / step) without the bound and floor((b - a) / step) + 1 with it |
| TripCount.RangeStart | src/ir/hir.c:930-933 | the state a range's turns begin in is the one written if and only if its counter is declared, or its start evaluates to 0 without a call |
| TripCount.StartShows | src/ir/hir.c:930-933 | the number of turns is that of the range as written for every bound if and only if the counter is declared or the start is 0 |
| TripCount.RangeEnds | src/ir/hir.c:910-963 | with a body that always ends the loop ends |
| TripCount.RangeLoopRuns | src/ir/hir.c:910-963 | a whole range statement ends with its counter where the number of turns puts it, and does end when its body does |

## Left out

- Data types other than 64-bit integers: sub-word conversions, floating point, strings, pointers, and with them the index, dereference, reference and struct-member paths of the lowering.
- FunctionSim.FunctionCorrect: asks `Hir.ArgumentsOk` of every call; by `ArgumentLimits.ArgumentsSurvive` a call without it loses or swaps values for some arguments of its shape.
- FunctionSim.FunctionCorrect: sees calls as events whose results come from outside; a whole program of functions calling each other is not run.
- Lir.UnaryResult: gives the bitwise complement for NOT, which is what the operator means; the backend prints the negation of the low byte instead (src/backend/backends/linux_x86_64/backend.c:1274-1279), see `ExprLimits.NotIsNeverComplement`.
- OptimizerProof.OptimizerKeepsBehaviour: says nothing when a rewrite misses its side condition; for constant MOD, unlike folds and DIV to SHR the code's rewrite is then wrong in general, as `OptimizerLimits` shows.
- Compiler.TameCorrect: does not cover functions with calls of more than six arguments, with arguments evaluated while others they could overwrite are in place, or with a one-byte counter that starts from nothing; nor several constants under one product, which are folded rightly when none is a power of two and the products are small, or under one shift, where that takes special constants; `Compiler.CompilerCorrect` covers all of these where the rewrites made are exact.
- Compiler.TameCorrect: takes it that a local variable's numbers never equal those of a register (src/ir/lir.h:161-163 compares them without a look at the kind of operand); for constants and arguments nothing of the kind is assumed beyond what their fields give, and the one argument that does look like a register is dealt with.
- Optimizing.Guards: the comparisons of data types, and of operands of other kinds as if they were registers, are arbitrary at every pass and index, as is rounding of constants a double does not hold; division of two constants, and shifts by less than 0 or more than 63, count as such.
- OptimizerLimits.PairFoldRight: is about two operators of one family; a sum next to a bitwise operator, say, is folded the same way and has no condition here.
- Lir.Alu: DIV and MOD are the signed forms; operators in a list with a non-negative literal are typed unsigned (src/frontend/parser.c:1106-1112, src/ir/hir.c:1205-1222), and dividing by an operand that is no constant is then printed as `div` (src/backend/backends/linux_x86_64/backend.c:891-899).
- OptimizerLimits.ModFoldIsWrong: this and the other examples of wrong rewrites are LIR programs, not the code of a source function followed through three passes.
- Optimizing.Optimizer.OptimizeLoadsAndStores: leaves out the rules on REFERENCE, which the modelled instructions do not have.
- Optimizing.Optimizer.OptimizeMathOperations: leaves out the replacement of SIZEOF by a number and floating-point constants, for the same reason.
- StackAgreement.StackAgrees: has 8 bytes a local; FrameTracking.FramesAreSound takes locals of any size.
- OptimizedFrames.OptimizedAgrees: is about the functions `Compiler.Tame` takes; in other code a pop may come to go straight to a local that has no place yet.
- CallingConvention.Machine.CallAndReturn: the callee reads its parameters and returns; what else it does below rbp is not modelled.
- The limit of 99 entries in the stack cache, and capacity doubling of lists.
- StructLayout.StructSize: counts a member that is itself a struct as 8 bytes, as the code does.
- StructInitializers.MembersReadBack: is about members that are 64-bit integers or narrower ones, each given by an integer expression; members that are structs or arrays are left out, called functions are taken not to write to the struct, and the emitter class does not have this code.
- Rewriting.SameBehaviour: is about one function and its EOF at a time, started at its first instruction, since labels count from 0 in every function and are printed as local to it (src/backend/backends/linux_x86_64/backend.c:1153-1157); `OptimizedPrograms.OptimizedSeparately` takes it to a whole program.
- RuntimeHeap.Runtime.Alloc: asks that the search stays inside the tags and the block inside the heap; the runtime's allocator does not handle being out of memory. `realloc` and the mapping of memory are left out.
- IntText.IntToString: asks for a base of at least 2 and not for the one case that overruns the buffer.
- Inline assembly, assembly text, register names, the lexer, resolver, imports, default values, documentation and command-line driver.

# Hive: a verified model

Hive is a small compiler for an asynchronous worker language, with a runtime that spreads
workers and objects over a network of hives. This project models its algorithmic cores in
Dafny 4.11 and proves what they are for. Run `dafny verify dfyconfig.toml` to check
everything.

The compiler, in the order a worker goes through it:

- **Parsing.** `Grammar` is plain PEG parsing without a cache; `Parser` is the memoised
  parser, a class whose table the recursive methods fill. It returns what plain parsing
  returns, for every grammar and text on which plain parsing terminates, and evaluates no
  rule twice at one position. `PegMeaning` says outright what that is: ordered choice, greedy
  periods, sequences. Trees lose nothing of the text; `WholeParse` says which trees a
  whole file gives, and exactly when they hold all of it.
- **Lowering.** `TreeMeaning` says what parsed trees mean, on the trees themselves, and that
  the nested expressions and statements of `Source` mean the same; `Builder` holds the builders,
  which append operations, count temporaries and patch jump offsets; `Lowering` and `LoweringRuns`
  prove that the code does what the program means wherever it is placed, and goes on for ever
  when the program does.
- **The operation graph.** `ControlFlow` and `WorkerContent` turn linear code into a graph and
  splice the jumps out of it, in place, keeping every run and keeping `prev` the exact inverse
  of `next`.
- **Promises.** `CompressPromise` is the pass that keeps promises which never leave their worker
  in plain variables; `Promises` and `PromiseRuns` prove that the worker still does the same.
- **Registers.** `RegisterAnalysis` and `RegisterColoring` compute live zones and the
  interference graph, with the exemption that lets a result take the register of an operand
  freed straight after, and colour it; `RegisterMachine` proves that any such colouring runs the
  program. `Spill`, `SpillRun`, `Allocator` and `SpreadRegisters` split variables into loads and
  stores by surgery on the graph, and run the allocate-and-split loop to its end. `Pressure`
  proves that temporaries are live only around the operation they were made for, so that the
  loop never gives up when there is a register for every variable of an operation; `Growth` bounds
  how much longer the code becomes. `Compiler`
  chains everything from the parsed body to registers; with three registers it always succeeds.
- **Code.** `CodeGenerator` lays the graph out depth first; `JumpInsertion` widens the jumps to a
  fixpoint and inserts them back to front, in place; `Processor` reads jumps from their bytes;
  `CodeLayout` proves byte for byte that control does what the graph says. `Executable` joins the two halves: from a parsed worker body
  to bytes that do what its source means.

The runtime:

- **Flood broadcasts.** `Echo` is one broadcast over any fixed network, `EchoProgress` what a
  refusal does to it; `ServerIds` claims server ids with it (0.3), `UniqueIds` and `RivalIds` say
  exactly when ids are unique, `IdProgress` exactly when a claim gets its id; `Pages` claims memory
  pages and hands out object ids (0.2), `PageProgress` says exactly when a claimed page arrives,
  and `PagesOnCycles` that all this needs a network without cycles. Every message handler is one
  atomic step.
- **Shared structures.** `RingQueue` (the task queue) and `WaitList` (tagged wait lists) step one
  atomic access at a time on any number of threads. `HashLayer` and `LayeredTable` are the hash
  table that doubles and moves keys up as they are read.
- **Framing.** `Decoder` is the incremental decoder of the byte stream between hives.

And the example program `examples/dft`: `Dft` is its in-place number-theoretic transform, proved
to compute the defining sums without 64-bit overflow, and to be undone by its inverse
(`ModArith`, `DftSpec`, `DftInverse`).

How the model is to be read:

- Methods carry the source's loops and updates and are proved against specification functions;
  the lemmas are about those functions.
- `World` in `Ir` is the outside world: it answers every operation from everything that happened
  so far. Two programs with the same events read the same values at every operation. Where
  a program is compared with its source (`Source`), the world answers operations by their
  operands alone (`Sensible`), gives an integer literal its value and lets a move copy.
- The order in which containers are visited, the register `rand()` picks, and the order in which
  heuristics pick variables to split are left open: the theorems hold for every choice.
- A graph is well linked when `prev` is the exact inverse of `next`. `connectOp` and
  `connectOpSecond` leave a test whose two links lead to one operation without the `prev` entry
  between the two calls; after both, the graph is well linked again.
- `Promotable` is what the escape check finds. A start where the variable holds a promise from
  outside is the one case in which the rewriting is wrong (`PromotionRightExactly`); the code
  that `buildWorkerContent` makes has no such start, since inputs arrive by operations the check
  sees (ir/ir.cpp:79-96). The pass needs that no `OP_NEW_PROMISE` operations run in a circle by
  themselves (`Ordered`), which the builders never produce: every loop has a test.
- Whether a hive refuses an id because it knows of another request for it depends on its clock,
  so in `ServerIds` a handler may refuse (`busy`) whenever it likes.
- Server ids are not unique in every run: on any network, two hives that ask for one id at the
  same time can both get it (`ConcurrentRequestsBothGranted`). A request is safe if and only if it
  has no rival, which is another hive without an id whose claim for the same id is open and has
  met no refusal (`ClearExactly`); when all requests are, ids are unique (`ClearRunsUnique`).
- The 0.2 handler confirms a repeated request twice where nothing is awaited
  (runtimes/0.2/x64_win/remote.c:604-620). No request is ever repeated on a network without
  cycles (`RequestsReachNewHives`); with cycles a broadcast can be finished before it has reached
  everyone, and two hives can get one page (`PageTwiceOnCycles`).
- A message with an empty body is delivered only once the next byte arrives
  (runtimes/0.3/common/remote.c:1182), hence the exact condition in `RoundTripExact`. The size
  bytes are kept as the code keeps them; chunk invariance is about the state as well as the
  messages.
- `SetHashtable` compares with the newest layer only. It is a compare-and-set exactly when that
  layer has the key or the value is 0, which a preceding read brings about
  (`SetIsCompareAndSet`, `BlindSetOverwrites`).

## Model

| member | source | states |
|---|---|---|
| Dft.Transform | examples/dft/example.c:16-78 | the whole of dft in place: for n = 2^m up to 2^20 and inputs within 2^63 - mod, a[k] ends as the canonical residue of the sum of a[j] w^(jk), w = 5^(2^20/n), or with inv as the inverse transform; no 64-bit overflow on the way |
| DftInverse.InverseRestores | examples/dft/example.c:55-70 | whatever is the inverse transform of the forward transform of s holds the residues of s |
| DftInverse.RoundTrip | examples/dft/example.c:16-78 | dft(a,n,0) followed by dft(a,n,1) leaves a[k] mod 7340033 of the input |
| Dft.BitReversal | examples/dft/example.c:18-33 | the swap loop is the bit-reversal permutation of the array |
| Dft.CarryReverses | examples/dft/example.c:21-26 | the inner loop, which adds one from the top bit down, steps from the reversal of x to that of x + 1 |
| Dft.NextReversed | examples/dft/example.c:21-26 | the carry loop stays in range and computes that step |
| Dft.RevInvolution | examples/dft/example.c:27-32 | reversing bits twice changes nothing, so each pair is swapped once |
| Dft.BitReversedAt | examples/dft/example.c:18-33 | the even/odd recursion reads its input in bit-reversed order |
| Dft.ButterflyPair | examples/dft/example.c:47-50 | one pair: u + x w and u - x w up to congruence, between -mod and mod, within 64 bits |
| Dft.ButterflyBlock | examples/dft/example.c:44-52 | one block of len elements is replaced by its butterfly, the rest of the array is untouched |
| Dft.Stage | examples/dft/example.c:42-53 | one pass over all blocks is the butterfly on every block, and elements stay below mod in size |
| Dft.StageRoot | examples/dft/example.c:37-41 | squaring the full root down gives the root for this block length |
| Dft.StageStep | examples/dft/example.c:35-54 | one pass takes the recursive transforms of all parts of size 2^l to those of size 2^(l+1) |
| Dft.Stages | examples/dft/example.c:35-54 | all passes together are the recursive transform |
| Dft.InverseOfLength | examples/dft/example.c:57-65 | binary powering gives the inverse of n modulo mod |
| Dft.Canonical | examples/dft/example.c:75 | ((x % mod) + mod) % mod, with truncating remainders, is the canonical residue |
| DftSpec.FftIsSum | examples/dft/example.c:35-54 | the even/odd recursion computes the defining sums |
| DftSpec.UnityRootIsPrincipal | examples/dft/example.c:37-41 | the root computed by squarings is 5^(2^20/n), or 4404020^(2^20/n) for the inverse |
| DftSpec.PrincipalHalfTurn | examples/dft/example.c:11-14 | half a turn of either root is -1: the constants have order 2^20 |
| DftSpec.PrincipalInverse | examples/dft/example.c:12-13 | 5 and 4404020 give roots that are inverses of each other |
| DftSpec.TwoOrder | examples/dft/example.c:57-58 | 2^(mod-1) is 1 modulo mod, so n^(mod-2) inverts a power of two |
| DftInverse.Orthogonality | examples/dft/example.c:55-70 | the powers of a product of root powers sum to n on the diagonal and to 0 off it |
| ModArith.GeoZero | examples/dft/example.c:11-14 | powers of a root of unity other than 1 sum to 0, without the modulus being known prime |
| ModArith.EvalSplit | examples/dft/example.c:47-50 | p(x) = even(x^2) + x odd(x^2), the split behind the butterfly |
| Parser.Parser.ParseRule | main/parser.cpp:109-136 | with any valid cache, returns what the grammar means there: the tree of the first variant that has one, every variant in front of it having none, or no tree and the furthest position any variant came to; and no (rule, position) pair is evaluated to completion twice |
| PegMeaning.GivesWhatIsMeant | main/parser.cpp:28-136 | plain parsing gives a tree if and only if it is that of a variant and every variant in front of it gives none, and gives no tree if and only if no variant does, with the largest of 0 and their positions |
| PegMeaning.VariantMeans | main/parser.cpp:64-106 | a variant gives a node over the trees of its prefix, of every round of the period and of its suffix; or fails at the furthest position, that of the suffix left out |
| PegMeaning.VariantEvaluates | main/parser.cpp:64-106 | and whatever is a variant's meaning, evaluation gives |
| PegMeaning.PeriodMeans | main/parser.cpp:77-89 | the period gives one round behind the other, every round fitting but the last one, which does not |
| PegMeaning.PeriodEvaluates | main/parser.cpp:77-89 | and whatever such rounds there are, evaluation gives their trees |
| PegMeaning.SeqMeans | main/parser.cpp:48-60 | a sequence gives the trees of its atoms, each tried behind the one in front, up to the first that has none, and the furthest position of all tried |
| PegMeaning.SeqEvaluates | main/parser.cpp:48-60 | and whatever such results there are, evaluation gives |
| Parser.Parser.ParseVariant | main/parser.cpp:64-106 | prefix, repeated period and suffix as plain parsing does them |
| Parser.Parser.ApplyPeriod | main/parser.cpp:77-89 | the period loop stops at the first failure and keeps the children of whole rounds only |
| Parser.Parser.ApplySeq | main/parser.cpp:48-60 | the sequence of atoms as plain parsing does it, with the furthest position |
| Parser.Parser.ParseAtom | main/parser.cpp:28-44 | literal, rule or scanner, as plain parsing does it |
| WholeParse.Parse | main/parser.cpp:139-174 | parsing a file ends; it returns the trees of plain parsing at the positions tried, in order, and reports an error if and only if one of these has no tree; the trees follow each other from the start to the end of the text, and spell it, if and only if non-empty constructions cover it one behind the other |
| WholeParse.TriesMoveOn | main/parser.cpp:144-172 | the positions tried start at the beginning and lead to the end of the text: behind a tree, one further if it is empty, and one behind the furthest position if there is none |
| WholeParse.PlainLooksForward | main/parser.cpp:139-174 | whatever plain parsing gives at a position, a tree or the place of an error, it is not in front of it |
| WholeParse.VariantsLookForward | main/parser.cpp:115-132 | a failing rule with a variant reports a position at or behind where it was tried, so the way past errors moves forward |
| Parser.LeastFuel | main/parser.cpp:109-136 | an evaluation that terminates needs a least depth; what runs inside it is less deep, so it cannot be the same pair again |
| Grammar.GivesOne | main/parser.cpp:28-136 | plain parsing has at most one result |
| Grammar.MuchMore | main/parser.cpp:28-136 | a result does not depend on how much depth is allowed |
| Grammar.TreesAreLossless | main/parser.cpp:28-136 | the tree of a successful parse starts where parsing started, ends where it goes on, has no gaps, and its leaves spell exactly the text between |
| Grammar.RuleTree | main/parser.cpp:101-105 | a node takes its start and end from its first and last child, and children follow each other without a gap |
| LoweringRuns.LoweringIsCorrect | ir/parsing/statement.cpp:35-94 | the code of a program, at any position in any code: if the program is done it reaches the position behind it with the same variables, and if the program goes on for ever so does the code |
| LoweringRuns.StmtRuns | ir/parsing/statement.cpp:35-94 | the same for one statement, with every temporary taken before untouched |
| LoweringRuns.WhileRuns | ir/parsing/statement.cpp:44-57 | while: guard behind the body, a jump to it first, its value freed on both ways out |
| LoweringRuns.LoopRuns | ir/parsing/statement.cpp:50-55 | from the guard, any number of rounds |
| LoweringRuns.MatchRuns | ir/parsing/statement.cpp:58-95 | match runs every case whose pattern equals the value, in order |
| LoweringRuns.CasesRun | ir/parsing/statement.cpp:64-92 | the cases one after the other, each evaluated in the store the previous one left |
| Lowering.ExprRuns | ir/parsing/Operators.cpp:107-270 | the code of an expression leaves its value in its temporary and its assignments in the variables |
| Lowering.LogicRuns | ir/parsing/Operators.cpp:208-270 | and-also and or-else evaluate the right operand only if it decides, and give -1 or 0 |
| Lowering.ArithmeticRuns | ir/parsing/Operators.cpp:107-206 | arithmetic and comparison: left operand, right operand, operation, both freed |
| Lowering.MovesRun | ir/parsing/SetOp.cpp:309-356 | an assignment gives the value to every target |
| Builder.BuildContext.BuildExpression | ir/parsing/Operators.cpp:107-270 | the builders produce exactly this code for the tree, whatever the nesting, and count temporaries as it does; what the tree means is NodeMeans |
| Builder.BuildContext.BuildChain | ir/parsing/Operators.cpp:115-151 | a chain of operators is grouped to the left, each link with its own operator and operand; what the chain means is LinksMean |
| TreeMeaning.NodeMeans | ir/parsing/Operators.cpp:107-270 | the expression compiled for a tree means what the tree means: a chain is folded from its first link on, each link applying its own operator to its own operand, which is skipped where the left value decides; an assignment sets all targets |
| TreeMeaning.LinksMean | ir/parsing/Operators.cpp:115-151 | the first k links grouped mean the fold over the first k links |
| TreeMeaning.BlockMeans | ir/parsing/codeblock.cpp:5-17 | a block means its statements in their order, each in the store the one before it left |
| TreeMeaning.StatementMeans | ir/parsing/statement.cpp:35-95 | while and match, said on the tree: the guard before every round, every case whose pattern has the value |
| Builder.BuildContext.BuildSet | ir/parsing/SetOp.cpp:309-356 | the value first, then a move to each target in order; the value is the result |
| Builder.LogicLink | ir/parsing/Operators.cpp:230-267 | the offsets patched in at the end are those of the code above |
| Builder.ArithmeticLink | ir/parsing/Operators.cpp:130-149 | operands, operation, frees in this order |
| Builder.BuildContext.BuildWhile | ir/parsing/statement.cpp:44-57 | the while code with its two offsets |
| Builder.BuildContext.BuildMatch | ir/parsing/statement.cpp:58-95 | the match code with an offset for each case |
| Builder.BuildContext.BuildStatement | ir/parsing/statement.cpp:35-95 | every kind of scalar statement |
| Builder.BuildContext.BuildCodeBlock | ir/parsing/codeblock.cpp:5-17 | statements one behind the other |
| LoweredCode.StmtFits | ir/parsing/statement.cpp:35-94 | lowered jumps stay inside the code of their statement, unconditional ones lead forward, variables are below the temporary counter, and no operation has more than a result and two operands |
| LoweredCode.StmtLands | ir/parsing/statement.cpp:35-94 | every jump in the code of a statement lands on an operation of it, so no test is left without a target |
| ControlFlow.OpsToBlocks | ir/ir.cpp:23-61 | both loops: blocks with exactly the links of the offsets, positions behind the end being the end, and prev filled to match |
| ControlFlow.SameLinearRun | ir/ir.cpp:33-59 | linear code and graph run step for step alike |
| ControlFlow.GraphOfLinked | ir/ir.cpp:52-58 | prev of the built graph is the exact inverse of next |
| ControlFlow.RemovedLinked | optimization/common.cpp:141-177 | taking an operation out keeps prev the exact inverse of next |
| ControlFlow.RemovalKeepsRuns | optimization/common.cpp:141-177 | taking a jump out keeps every run, in both directions, and where runs end |
| WorkerContent.Content.constructor | ir/ir.cpp:102-107 | the worker content is the graph of its operations |
| WorkerContent.Content.RemoveOp | optimization/common.cpp:141-177 | removeOp in place: links, prev sets, entry and code vector |
| WorkerContent.Content.RemoveJumps | ir/ir.cpp:112-119 | all OP_JMP gone, every other operation kept, every run kept, no test left without a target |
| Compiler.Compile | ir/ir.cpp:64-120 | from a parsed body to registers, always successfully with three of them: wherever the body, by the meaning of its tree, is done, the registers halt having done the operations of a run that ends with its values; wherever it goes on for ever, they never halt; and with two registers it fails only where temporaries of splitting are all that is live and one of them has neighbours in both |
| Compiler.CompiledNeverHalts | ir/ir.cpp:64-120 | and if the program is never done, the registers it was compiled to never come to the end, and do its operations, as many as one asks for |
| Compiler.SplicedIsNarrow | ir/ir.cpp:64-120 | no operation of a compiled worker uses more than three variables |
| Compiler.DoneHalts | ir/parsing/statement.cpp:35-94 | a program that is done leaves its graph at the end with its values |
| Compiler.RunningNeverHalts | ir/parsing/statement.cpp:44-57 | a program that goes on for ever never leaves its graph |
| CompressPromise.ApplyFn | optimization/compress_promise.cpp:31-100 | the whole pass in place: compresses exactly the promises that pass the check at the start, leaves none that does, and the result refines the worker from every start in which those variables hold no promise |
| CompressPromise.HasEscape | optimization/compress_promise.cpp:41-67 | the check loop finds an escape exactly if some other operation uses the promise otherwise than by querying it or pushing to it |
| CompressPromise.PassesExactly | optimization/compress_promise.cpp:41-67 | a promise is compressed exactly if every other operation is a free, a query into another variable, a push of another variable, or does not mention it |
| CompressPromise.Promote | optimization/compress_promise.cpp:69-94 | the rewriting loop with its index bookkeeping: all queries and pushes become moves, the OP_NEW_PROMISE is spliced out, the outer index moves back by one |
| CompressPromise.PassesStays | optimization/compress_promise.cpp:41-67 | compressing one promise changes the outcome of the check for no other |
| PromiseRuns.PromotionRefines | optimization/compress_promise.cpp:69-94 | every run of the original, any number of loop iterations, that does not wait for ever is matched by a run of the rewritten worker with the same exchanges with the outside, memory, other variables and other promises |
| PromiseRuns.PromotionRightExactly | optimization/compress_promise.cpp:41-94 | the rewriting is right for every worker that passes the check if and only if the variable does not hold a promise from outside at the start |
| PromiseRuns.EarlyPushLost | optimization/compress_promise.cpp:75-88 | the counterexample: a push to an outside promise before the worker makes its own is lost |
| PromiseRuns.RunFollows | optimization/compress_promise.cpp:75-94 | the rewritten worker stays in step, the variable holding the content of the promise it stands for |
| PromiseRuns.RefinesTwice | optimization/compress_promise.cpp:34-99 | compressing several promises one after the other composes |
| Promises.QueryStands | optimization/compress_promise.cpp:80-84 | a query that does not wait gives what the variable holds |
| Promises.PushStands | optimization/compress_promise.cpp:85-89 | after a push the variable holds the content, however often it is pushed |
| Promises.QueryAfterPush | optimization/compress_promise.cpp:80-89 | what a promise is: a query gives what was pushed last, and a push touches no other promise |
| Promises.NewPromiseIsEmpty | optimization/compress_promise.cpp:69-94 | a new promise is no other one, and a query of it waits |
| Promises.AskStands | optimization/compress_promise.cpp:52-65 | operations that do not mention the variable cannot see its promises, so they show and get the same |
| RegisterMachine.AllocationPreservesRuns | analysis/analizators.hpp:153-217 | for every proper colouring of the interference graph, the register run follows the same path with the same values at every read and the same memory as the variable run, as far as that reads nothing undefined; shared registers of the exemption included |
| RegisterMachine.NoClobber | analysis/analizators.hpp:190-205 | the register a result goes to holds no other value still needed, also when the conflict was left out because the operand is freed straight after |
| RegisterMachine.FreedNotNeeded | analysis/analizators.hpp:173-182 | what the chain of frees behind an operation frees is not needed there |
| RegisterAnalysis.Marking.Update | analysis/analizators.hpp:91-121 | one recursive walk marks exactly what it should, and ends |
| RegisterAnalysis.MarkAll | analysis/analizators.hpp:123-137 | all walks together mark an operation exactly if a use of the variable reaches it with no free between |
| RegisterAnalysis.BackwardMarks | analysis/analizators.hpp:107-121 | the walk along prev marks exactly the operations that lead to a use |
| RegisterAnalysis.UpdateOpVars | analysis/analizators.hpp:123-151 | op_vars is exactly the set of live variables of each operation |
| RegisterColoring.BuildMainConflictGraph | analysis/analizators.hpp:153-217 | two variables overlap exactly if they conflict at some operation, exemption included; all live variables are nodes |
| RegisterMachine.ConflictExactly | analysis/analizators.hpp:190-205 | two variables conflict at an operation exactly if both are live there and it is not the case that the operation writes one of them and nothing else, reads the other, and the chain of frees straight behind it frees that one |
| RegisterColoring.FreedChain | analysis/analizators.hpp:173-182 | the loop over the frees behind an operation |
| RegisterColoring.FindRandom | codegen/registerAllocator.hpp:37-58 | the free register with exactly rand % count free ones before it, or -1 exactly if none is free |
| RegisterColoring.Colour | codegen/registerAllocator.hpp:251-325 | greedy colouring: neighbours get different registers, or it stops at a variable with neighbours in all of them |
| RegisterColoring.TryAllocate | codegen/registerAllocator.hpp:199-326 | one round: when it succeeds, its registers run the program; when it fails, some live variable has a neighbour in every register |
| Pressure.SplitConfined | codegen/registerAllocator.hpp:377-420 | however often variables are split, a temporary is used, and can be live, only among the operations made for one operation, which uses it |
| Pressure.LiveAtHome | codegen/registerAllocator.hpp:401-416 | wherever a temporary is live, the operation there was made for the one the temporary was made for |
| Pressure.SplitNarrow | codegen/registerAllocator.hpp:396-416 | splitting makes no operation use more variables than before |
| Pressure.TempsDoNotCrowd | codegen/registerAllocator.hpp:267-321 | when only temporaries are live, none has neighbours in every register as long as there is one for each variable of an operation |
| Spill.SplitOpLinked | codegen/registerAllocator.hpp:396-416 | splitting one operation keeps prev the exact inverse of next, jumps with both links to one operation included |
| Spill.SplitOpParts | codegen/registerAllocator.hpp:401-416 | load before, store and free behind in this order, a free on each link of a test, the operation on the temporary |
| SpillRun.SplitPreservesRuns | codegen/registerAllocator.hpp:377-420 | every run of the program is matched by a run of the split one with the same events, at the same operation, and with the variable's memory cell equal to its old value at every original operation |
| Allocator.FullySplitTidy | codegen/registerAllocator.hpp:377-420 | after SplitVariable no operation uses the variable, and what is new is a generated temporary |
| GraphSurgery.RedirectLinks | optimization/common.cpp:124-134 | the loop over the links of one predecessor |
| GraphSurgery.InsertBeforeLinked | optimization/common.cpp:109-139 | inserting before an operation keeps prev the exact inverse of next |
| GraphSurgery.InsertAfterLinks | optimization/common.cpp:66-107 | inserting on link k keeps every pair linked both ways or not at all, and repairs the pair whose other link went first |
| SpreadRegisters.RegisterSpreader.ConnectOp | optimization/common.cpp:66-107 | connectOp and connectOpSecond in place |
| SpreadRegisters.RegisterSpreader.ConnectBeforeOp | optimization/common.cpp:109-139 | connectBeforeOp in place, entry included |
| SpreadRegisters.RegisterSpreader.EditOperation | codegen/registerAllocator.hpp:401-416 | the edits of one operation, in the order of the source, are the split of that operation |
| SpreadRegisters.RegisterSpreader.SplitVariable | codegen/registerAllocator.hpp:377-420 | the loop over the growing code vector ends, every operation that used the variable is split, exactly this one variable is gone from those not yet split, and the program is implemented |
| SpreadRegisters.RegisterSpreader.SplitSome | codegen/registerAllocator.hpp:297-304 | splits the first variables of any order, counting down: exactly as many as asked for, or all there are |
| SpreadRegisters.RegisterSpreader.SplitAll | codegen/registerAllocator.hpp:362-373 | past the iteration limit, every variable seen |
| SpreadRegisters.RegisterSpreader.SplitRound | codegen/registerAllocator.hpp:267-321 | a failed round stops exactly when everything live is a temporary; otherwise it splits as many of the variables seen as a quarter of them exceeds the registers by, at least one, and after fifty rounds all of them |
| SpreadRegisters.RegisterSpreader.Spread | codegen/registerAllocator.hpp:331-375 | the loop terminates on every worker; it returns registers below the limit that run the given program, or stops only when nothing but temporaries it made itself is live and one of them has neighbours in every register, which never happens if no operation uses more variables than there are registers |
| CodeGenerator.BuildFn | codegen/x64_win/build_fn.cpp:61-75 | in the final bytes every operation stands where the address table says, and control leaves it for exactly its successors; code built before is untouched; the code is no longer than the bytes of all operations, 12 more for each test, and 6 |
| CodeGenerator.RunIsExecuted | codegen/x64_win/build_fn.cpp:61-75 | running those bytes from the start does, in order, exactly the operations of any run over registers, and comes to a return where it ends; each test leaves as its jump, read from literal bytes, goes for the value in the tested register |
| CodeGenerator.StepIsExecuted | codegen/x64_win/operation.cpp:33-77 | one step: the bytes of the operation, then on to those of the successor that the run takes |
| CodeGenerator.TestGoes | codegen/x64_win/operation.cpp:67-76 | the jump behind a test goes to its target exactly for the values for which the test is taken |
| JumpEncoding.JumpGoes | codegen/x64_win/asm.cpp:810-901 | of the jumps printed, JZ is taken by the processor exactly with the zero flag, JNZ exactly without it, JMP always |
| Executable.BuildWorker | codegen/x64_win/build_fn.cpp:4-75 | from a parsed body to bytes: wherever the body, by the meaning of its tree, is done, the processor comes from the first byte of the worker to a return, having executed exactly the operations of a run that ends with its values; wherever it goes on for ever, so does the processor; what is executed for an operation are the bytes of one on registers below the limit that does what the run does there, and nothing for a free; with c lowered operations and at most b bytes for one, the worker takes no more than 13c(b + 12) + 6 bytes |
| Executable.BodyIsOnRegisters | codegen/x64_win/build_fn.cpp:18-21 | the operation encoded uses only registers, and on every machine does what the run over registers does |
| Growth.SplitRoom | codegen/registerAllocator.hpp:377-420 | splitting an operation uses up one use of a variable that is no temporary and makes four operations at most, so their sum, a use counted as four, never grows |
| Growth.RoomToBegin | codegen/registerAllocator.hpp:331-375 | a program whose operations use three variables at most grows thirteenfold at most, however its variables are split |
| Executable.BytesAreDone | codegen/x64_win/build_fn.cpp:61-75 | bytes laid out for registers that implement a program return wherever it is done, with its events |
| Executable.BytesGoOn | codegen/x64_win/build_fn.cpp:61-75 | and go on for ever, with as many of its events as one asks for, wherever it is never done |
| CodeGenerator.Assembler.BuildOperation | codegen/x64_win/operation.cpp:7-33 | one round of the worklist keeps the layout connected and makes progress |
| CodeGenerator.Assembler.Lay | codegen/x64_win/operation.cpp:33-77 | bytes, address and order of a new operation, and the jump of a test, of the kind TestGoes is about |
| CodeGenerator.BodyGenerated | codegen/x64_win/operation.cpp:660-663 | pushing the successors in reverse puts the fallthrough next |
| CodeGenerator.EndGenerated | codegen/x64_win/operation.cpp:15-31 | a return, or a jump to what is laid out already, connects the last operation |
| CodeLayout.FinishedIsLaidOut | codegen/x64_win/call_expansion.cpp:45-180 | what generation and insertion leave behind is a layout of the graph |
| CodeLayout.JumpLands | codegen/x64_win/call_expansion.cpp:121-158 | every inserted jump is decoded by the processor as a jump to where its destination stands |
| CodeLayout.OperationAt | codegen/x64_win/call_expansion.cpp:170-175 | the updated address table says where an operation stands |
| Layout.JumpsOrdered | codegen/x64_win/call_expansion.cpp:55-57 | jumps are recorded in the order the sort asks for, so sorting leaves them as they are |
| Layout.CountIsBefore | codegen/x64_win/call_expansion.cpp:84-89 | the lookup by (address, order) counts exactly the jumps in front of an operation, also at addresses shared with frees, which have no bytes |
| Layout.SplicedIsFlat | codegen/x64_win/call_expansion.cpp:121-158 | inserting the jumps gives the items of the layout one behind the other |
| JumpInsertion.SelectSizes | codegen/x64_win/call_expansion.cpp:60-107 | the do-while loop terminates, every jump fits its encoding, and no jump is wider than it has to be: it is short exactly if in the finished code its destination is -122 to 127 bytes from it |
| JumpInsertion.WideningShrinks | codegen/x64_win/call_expansion.cpp:92-105 | encodings only go from 0 to 1 |
| JumpInsertion.FarStaysFar | codegen/x64_win/call_expansion.cpp:92-105 | widening other jumps never brings a destination back into reach |
| JumpInsertion.FillOffsets | codegen/x64_win/call_expansion.cpp:64-81 | the offsets map, including entries left from the round before |
| JumpInsertion.LookupIsShift | codegen/x64_win/call_expansion.cpp:87-88 | prev(upper_bound(key)) is the number of bytes inserted before the key |
| JumpInsertion.FillPositions | codegen/x64_win/call_expansion.cpp:83-89 | positions of all operations |
| JumpInsertion.Widen | codegen/x64_win/call_expansion.cpp:91-105 | the check of all jumps |
| JumpInsertion.MoveUp | codegen/x64_win/call_expansion.cpp:128-134 | memmove to higher addresses |
| JumpInsertion.InsertOne | codegen/x64_win/call_expansion.cpp:127-144 | moving a block and printing a jump never overwrites code still to be moved, and both asserts hold |
| JumpInsertion.InsertAll | codegen/x64_win/call_expansion.cpp:121-158 | the backward loop turns the generated code into the code with all jumps inserted |
| JumpInsertion.InsertJumpInstructions | codegen/x64_win/call_expansion.cpp:45-180 | the whole function: sizes, bytes, new end, address table |
| JumpEncoding.EncodeLands | codegen/x64_win/asm.cpp:810-901 | the bytes printJMP writes are decoded as a jump of that kind, of the size JMPsize says, to the offset from its own start |
| Echo.FinishedReachesAll | runtimes/0.3/common/remote.c:594-709 | on any connected network, when the hive that started a broadcast has all its confirmations, every hive has accepted it |
| Echo.AllDone | runtimes/0.3/common/remote.c:670-709 | then every hive that took part has all its confirmations, down the tree of parents |
| Echo.StartInv | runtimes/0.3/common/remote.c:1499-1527 | starting a broadcast establishes the invariant |
| Echo.AcceptInv | runtimes/0.3/common/remote.c:616-638 | accepting, recording and passing on a request keeps it |
| Echo.RepeatInv | runtimes/0.3/common/remote.c:648-668 | confirming a request from another neighbour keeps it |
| Echo.RefuseInv | runtimes/0.3/common/remote.c:600-614 | refusing keeps it |
| Echo.ConfirmedInv | runtimes/0.3/common/remote.c:670-709 | counting a confirmation, and passing on the last one, keeps it |
| Echo.RequestsReachNewHives | runtimes/0.2/x64_win/remote.c:587-610 | on an acyclic network no request ever reaches a hive that already has a record |
| Echo.ClimbingCloses | runtimes/0.2/x64_win/remote.c:587-610 | because two hives of one broadcast with a request between them close a cycle over their parents |
| ServerIds.GrantNeedsEveryHive | runtimes/0.3/common/remote.c:682-693 | in every run, whenever a hive gets an id it had none, it had asked for exactly this one, and every hive has accepted that broadcast |
| ServerIds.HeldIdNeverGranted | runtimes/0.3/common/remote.c:600-605 | an id some hive holds when another starts asking for it is never granted to that request, however the run goes on |
| UniqueIds.ClearRunsUnique | runtimes/0.3/common/remote.c:594-709 | on any connected network, in every run all of whose requests are clear of rivals, no two hives hold the same id |
| UniqueIds.AloneRunsUnique | runtimes/0.3/common/remote.c:1499-1527 | so also if no hive asks for an id while another hive's claim for it is open |
| UniqueIds.StepKeepsSafe | runtimes/0.3/common/remote.c:594-709 | every clear step keeps ids distinct, and keeps two claims for one id from both being grantable |
| UniqueIds.GrantedWasLive | runtimes/0.3/common/remote.c:682-693 | an id is granted only to a claim that nobody has refused and that no holder of the id has accepted |
| UniqueIds.StepWhole | runtimes/0.3/common/remote.c:600-709 | a claim is free of refusals exactly until the step that refuses a request of it |
| IdProgress.RestExactly | runtimes/0.3/common/remote.c:594-709 | in every run, on any network: a claim with no message left is settled if and only if nobody refused it, and then its hive has an id |
| IdProgress.SettledHasId | runtimes/0.3/common/remote.c:682-693 | in every run, the hive of a settled claim has an id |
| RivalIds.ClearExactly | runtimes/0.3/common/remote.c:594-709 | after any run of clear requests, the next step keeps ids distinct in every continuation whose own requests are clear if and only if it is clear itself |
| RivalIds.RivalsBothGranted | runtimes/0.3/common/remote.c:600-614 | from any reachable state, a request with a rival can lead, without any further request, to both hives holding the id |
| RivalIds.ConcurrentRequestsBothGranted | runtimes/0.3/common/remote.c:600-614 | on any connected network, any two hives that ask for any one id at the same time can both be granted it |
| RivalIds.DrainRequests | runtimes/0.3/common/remote.c:616-668 | the requests of a claim that nobody refuses, and those they lead to, can all be handled |
| RivalIds.DrainAnswers | runtimes/0.3/common/remote.c:670-709 | and then its confirmations, until the id is granted |
| EchoProgress.QuietIsFinished | runtimes/0.3/common/remote.c:670-709 | a broadcast nobody refused that has nothing on its way is finished at every hive that took part |
| EchoProgress.RefusedIsNotWhole | runtimes/0.3/common/remote.c:600-614 | a refused request is never made up for: the hive that sent it waits for ever |
| ServerIds.RunKeepsOk | runtimes/0.3/common/remote.c:594-709 | every step of any number of concurrent broadcasts keeps the invariant of each |
| Pages.NoPageTwice | runtimes/0.2/x64_win/remote.c:544-658 | on any acyclic connected network, in every run, with any number of concurrent requests, no page is confirmed twice, on one hive or on two |
| Pages.OneSettledPerPage | runtimes/0.2/x64_win/remote.c:565-585 | two broadcasts for one page are never both settled |
| Pages.NoObjectIdTwice | runtimes/0.2/x64_win/new_object.c:101-122 | no object id is handed out twice, anywhere in the network |
| Pages.ObjectIdInjective | runtimes/0.2/x64_win/new_object.c:112 | 40-bit pages and 24-bit slots give different ids, also where the shift makes them negative |
| Pages.ObjectIdHolds | runtimes/0.2/x64_win/new_object.c:112 | the low 24 bits of an object id are the slot, the 40 bits above them the page |
| Pages.FirstFree | runtimes/0.2/x64_win/new_object.c:105-117 | the page chosen is the first with a free slot |
| Pages.PageTable.GetNewObjectId | runtimes/0.2/x64_win/new_object.c:101-122 | takes the next slot of the first page that has one and nothing else, or reports that there is none |
| Pages.StepKeepsClaims | runtimes/0.2/x64_win/remote.c:544-658 | every handler keeps the invariant of every broadcast, and that two for one page meet only where the later one started |
| Pages.ConfirmingSettles | runtimes/0.2/x64_win/remote.c:635-643 | a page is confirmed only by the step that settles a broadcast for it, on the hive that started it |
| PageProgress.ConfirmedPageIsFree | runtimes/0.2/x64_win/remote.c:138-145 | that step puts the page behind the others of the hive's table with no slot used, so that the hive can take an object id next |
| PageProgress.SettledByConfirming | runtimes/0.2/x64_win/remote.c:628-658 | and no other step settles a broadcast |
| PageProgress.SettledHasPage | runtimes/0.2/x64_win/remote.c:544-658 | in every run, the page of a settled broadcast is in the table of the hive that started it |
| PageProgress.RestExactly | runtimes/0.2/x64_win/remote.c:544-658 | in every run, a broadcast with no message left has left its page there if and only if nobody refused it |
| PageProgress.SoleClaimIsGranted | runtimes/0.2/x64_win/remote.c:565-585 | the only broadcast that asks for a page is never refused, and once it has no message left its hive has the page |
| PageProgress.StepWhole | runtimes/0.2/x64_win/remote.c:565-610 | a broadcast is free of refusals exactly until the step that refuses a request of it |
| PagesOnCycles.PageTwiceOnCycles | runtimes/0.2/x64_win/remote.c:604-618 | without acyclicity this fails: on two triangles joined by a link any page can be confirmed on two hives |
| PagesOnCycles.CornerClaims | runtimes/0.2/x64_win/remote.c:604-643 | from a triangle with one more neighbour, whatever goes on elsewhere, a page can be claimed without that neighbour, the double confirmation being counted for it |
| Pages.RunKeepsOk | runtimes/0.2/x64_win/remote.c:544-658 | so does every run |
| RingQueue.RunKeepsInv | runtimes/0.3/common/queue.c:35-77 | the invariant holds in every state of every run, interleaved at each atomic access, weak exchanges failing at will |
| RingQueue.StepBalance | runtimes/0.3/common/queue.c:35-77 | for every cell, pushes on their way and a full cell balance pops on their way and a slot in use |
| RingQueue.NothingLost | runtimes/0.3/common/queue.c:35-77 | every pushed item is with the thread that pushes it, in exactly one cell, or popped, exactly once |
| RingQueue.WaitingPopHasPusher | runtimes/0.3/common/queue.c:62-73 | a pop that waits for an empty cell has a push still to write it |
| RingQueue.BlockedPushHasPopper | runtimes/0.3/common/queue.c:39-45 | a push blocked on a full cell has a pop that owns it |
| RingQueue.QuietIsExact | runtimes/0.3/common/queue.c:35-77 | with no operation under way the full cells are exactly the slots between head and tail |
| RingQueue.EmptyPopSawEmpty | runtimes/0.3/common/queue.c:47-60 | a pop that returns nothing loaded the head, after it started, at a moment when no slot was in use |
| RingQueue.PopReturnsWhatItTakes | runtimes/0.3/common/queue.c:62-75 | the pointer a pop returns is that of the push it takes out of the cell |
| RingQueue.AlonePushes | runtimes/0.3/common/queue.c:35-45 | a push that nothing comes between puts its item in front of the others |
| RingQueue.AlonePops | runtimes/0.3/common/queue.c:47-77 | and such a pop takes the item in front and leaves the rest in order |
| WaitList.RunKeepsInv | runtimes/0.3/common/remote.c:350-399 | the invariant holds in every state of every run of inserts and takes, one exchange at a time, freed addresses being used again at will |
| WaitList.TagCountsHolders | runtimes/0.3/common/api.c:408-425 | per key, the tag is the number of threads working on a list taken from it, and at most 1 |
| WaitList.NodeIsSomewhere | runtimes/0.3/common/remote.c:350-399 | every inserted node waits under its key, or is in one holder's list, or was delivered, exactly one of the three, and once |
| WaitList.HeldUntilDelivered | runtimes/0.3/common/remote.c:370-380 | no step loses a node: a waiting one is taken with its list, a held one is delivered |
| WaitList.StepHolders | runtimes/0.3/common/api.c:545-570 | tag and holders stay in step through inserts that copy the tag, takes that set it and releases that count it down |
| WaitList.InsertPutsInFront | runtimes/0.3/common/remote.c:350-367 | an insert whose exchange succeeds puts its node in front of those that wait and keeps the tag |
| WaitList.TakeGetsAll | runtimes/0.3/common/remote.c:382-393 | a take whose exchange succeeds on an untagged list gets exactly what waits, and leaves an empty list with tag 1 |
| WaitList.HolderGoesOn | runtimes/0.3/common/remote.c:370-399 | a holder can always go on: it delivers the node in front, or puts the tag back to 0 |
| HashLayer.Probe | runtimes/0.3/common/api.c:286-310 | linear probing ends, at the key if and only if the layer has it |
| HashLayer.Written | runtimes/0.3/common/api.c:299-329 | writing a value, or an entry where probing stopped, changes this key only and keeps every other key where probing finds it |
| HashLayer.SomeFree | runtimes/0.3/common/api.c:664-692 | a layer with fewer keys than slots has a free one |
| LayeredTable.RoomLeft | runtimes/0.3/common/api.c:630-657 | however often the table has doubled and whatever is read, every layer keeps about half of its slots free, so probing always ends |
| LayeredTable.RawUpdate | runtimes/0.3/common/api.c:280-386 | the raw update of one layer: compares, writes or inserts, and touches no other key |
| LayeredTable.Get | runtimes/0.3/common/api.c:490-541 | reading returns the value of the plain map and changes it for no key, while the key moves up through every layer |
| LayeredTable.MovedUp | runtimes/0.3/common/api.c:529-538 | copying a key up keeps the map and the bound on how many keys a layer has of its own |
| LayeredTable.Table.constructor | runtimes/0.3/common/api.c:664-692 | a table is one layer of 1024 slots, and stands for the empty map |
| LayeredTable.Table.Read | runtimes/0.3/common/api.c:612-615 | as get, and afterwards the newest layer has every key that reads as other than 0 |
| LayeredTable.Table.Set | runtimes/0.3/common/api.c:630-660 | the result and new value of the key; an empty layer of twice the slots on top exactly if a 0 was replaced and more than a quarter of the slots is used with the key, else the layers stay; no other key changes |
| LayeredTable.Table.TakeTagged | runtimes/0.3/common/api.c:390-487 | takes the pointer bits and raises the tag, does nothing to an empty list, waits while the tag is too high; no other key changes |
| LayeredTable.TaggedPointer | runtimes/0.3/common/api.c:390-487 | a value is a multiple of 16 and a tag from 0 to 15 |
| LayeredTable.Table.Add | runtimes/0.3/common/api.c:545-608 | adds to a key that is there, and does nothing to one that is not; the build with 16-byte exchanges returns the new value, the other one the old value where the newest layer has the key |
| LayeredTable.SetIsCompareAndSet | runtimes/0.3/common/api.c:630-660 | a set is a compare-and-set on the map if and only if the newest layer has the key or the value is 0, so it is one after a get |
| LayeredTable.BlindSetOverwrites | runtimes/0.3/common/api.c:630-660 | without the get, a set expecting 0 overwrites a value that is still in an older layer |
| Decoder.Connection.Receive | runtimes/0.3/common/remote.c:1180-1250 | the loop over a received chunk leaves the state, and delivers the messages, of the bytes taken one by one |
| Decoder.Connection.ReceiveSize | runtimes/0.3/common/remote.c:1190-1212 | size bytes, in any number of pieces |
| Decoder.Connection.ReceiveBody | runtimes/0.3/common/remote.c:1213-1249 | body bytes, in any number of pieces |
| Decoder.FeedTwice | runtimes/0.3/common/remote.c:1180-1250 | chunk invariance: two pieces leave the same state and messages as one |
| Decoder.RoundTrip | runtimes/0.3/common/remote.c:462-466 | decoding any encoded messages returns them, an empty last one still pending |
| Decoder.Wire | runtimes/0.3/common/remote.c:462-466 | an encoded message is the call, seven bytes of body size with the lowest first, and the body |
| Decoder.Connection.ReceiveAll | runtimes/0.3/common/remote.c:1180-1250 | receiving encoded messages in any sequence of chunks delivers exactly these messages, an empty last one still pending |
| Decoder.EncodedFits | runtimes/0.3/common/remote.c:462-466 | encoded messages that fit the buffer never announce one that does not |
| Decoder.NextChunk | runtimes/0.3/common/remote.c:1180-1250 | wherever encoded messages are cut into chunks, the next chunk can be received where the ones before lead |
| Decoder.RoundTripExact | runtimes/0.3/common/remote.c:1213-1240 | the round trip is complete if and only if the last message has a body |

## Left out

- Sockets, event loops, threads, clocks, randomness, console, file loading, OpenCL and DLL calls: foreign code. Broadcast ids are fresh values, timeouts a refusal at any time.
- Networks that change during a run, lost messages, handlers that interleave inside one another.
- Pages.NoPageTwice: takes the page id a request brings as a clean number of 40 bits. The handler copies five bytes into a 64-bit variable it does not initialise (runtimes/0.2/x64_win/remote.c:546-547) and compares all 64 bits, so the theorem assumes the upper three bytes to be 0.
- Executable.BuildWorker: what the bytes of one operation do is not modelled, only that they are the bytes of an operation on its registers and are executed in the right order; memory places of split variables are their numbers.
- Page claiming in 0.3, which files broadcasts in one table and looks answers up in another.
- The wait list together with table growth: words are exchanged at one place per key. The list of waiting pushes (runtimes/0.3/common/remote.c:401-432) works as that of waiting queries and is not repeated.
- Threads inside one table operation: table operations are taken one at a time, and layers hold their slots as sequences. Key memory (`hashtable_alloc_key_space`) and 64-bit overflow of values are not modelled; nothing depends on the hash function, which is 0 for almost every byte string (runtimes/0.3/common/api.c:60).
- The table with 64-bit keys (runtimes/0.3/common/api.c:77-229): the same algorithm, except that key 0 is reserved and that setting a key the newest layer misses from a value other than 0 never returns.
- RingQueue.RunKeepsInv: at most RING_SIZE claimed slots, as an enabling condition of the claim; `head` does not wrap around; `queue_push`, which the scheduler never calls, is not modelled.
- Decoder.Connection.Receive: messages longer than the 4096-byte buffer are excluded; the code does not check them.
- Parser.Parser.ParseRule: grammars on which plain parsing does not end (left recursion, a period that matches nothing) are excluded, as the parser does not end on them either. The furthest position of a failing suffix is dropped, as in the code.
- WholeParse.Parse: positions behind the end of the text count as the end, which an error at the end brings about (main/parser.cpp:154); the file's rule has a variant, and plain parsing of it ends wherever there is text; error messages are left out.
- The AST above the parser: names are resolved to variables, widths and providers checked, errors reported elsewhere; `Node` and `Statement` in `Builder` stand for trees without errors.
- Structures, arrays, pipes, classes, sleeps, calls, string and float literals, prefix `!` and `~`, `PUSH_VAR` and `QUERY_VAR`, attributes on operations: everything but scalars, and for promises the three operations on them.
- Programs that read a variable nothing was stored in: nothing is claimed about what their code does.
- `optimize_query_var`: lowering is that of the default configuration.
- What arithmetic operations compute: the world answers them by their operands, whatever their width. Scalar casts and implicit conversions are taken as moves.
- Compiler.Compile: a body without statements is excluded, for which `data.front()` has no meaning (ir/ir.cpp:106). Inputs and outputs are not loaded.
- Execution counts, lifetimes and the other heuristics of the analysis, `TryColorSame` (its caller's call is commented out), and physical registers: any order and any choice is allowed instead.
- RegisterColoring.FreedChain: follows at most as many frees as the graph has operations. A circle of frees, on which the code would not end, is not built.
- SpreadRegisters.RegisterSpreader.Spread: where the code prints an error and exits it returns false; which variables then remain live, and which one has no register, is stated.
- CodeGenerator.BuildFn: operation bodies are blocks of bytes of any size (none for frees, some for tests), conditional jumps have a target, as in every compiled worker, the buffer has room for every jump in its long form, and displacements are right as long as the code is below 2^31 bytes, which the bound on its length lets a caller check. `addrToLine` and the runtime header are updated by the same lookup and are not modelled; of the jumps only JMP, JZ and JNZ, the ones that are used.
- CompressPromise.ApplyFn: the type change of the variable is not modelled, and original runs that wait for ever are not matched: the rewritten worker may go on with an old value.
- GPU code, the inliner, object path distances, `codegen/memoryAllocator.cpp`, examples/qsort and sieve, XML and logging.

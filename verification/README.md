# A verified model of the SysY compiler

The compiler turns SysY programs into an SSA intermediate representation, optimises it, and starts to
generate LoongArch assembly. This project models its algorithms in Dafny and proves what they are for.

- **Front end** (`SysY`, `Source`, `Definedness`, `Lowering`, `Builder`, `LoweringMeaning`, `Liveness`, `FrontEnd`): the
  visitors that lower parameters, declarations and assignments of scalar variables, expressions and calls,
  and `if`, `while`, `break`, `continue`, `return`, `&&` and `||` with explicit stacks of target blocks. A
  lowered function and an interpreter of the statement tree end in the same way, with the same value and
  memory; which of its blocks are reachable is read off the statement tree. `ArrayInit` is the flattening of
  nested array initializers, `InitLayout` compares it with the one that C prescribes.
- **Analyses** (`ControlFlow`, `DominatorTree`, `Dominators`, `FuncInfo`, `Purity`): dominators by the
  iterative algorithm with two-finger intersection, dominance frontiers by runner walks, and the
  worklist that decides which functions are pure. All are exact with respect to textbook definitions.
- **Passes** (`Promotion`, `PromotionMeaning`, `PhiPlacement`, `StorePaths`, `Renaming`, `Mem2Reg`,
  `Mem2RegRun`, `PromotedForm`, `DeadCode`, `DeadCodeMeaning`, `UseChains`, `Pipeline`, `Composition`, `LoopExample`,
  `UnstoredExample`, `UseLists`): phi placement and renaming over the dominator tree, mark and sweep, and
  both passes together on whole programs.
- **The whole way** (`Compiler`, `SourceExample`): source programs through the front end and both passes.
- **IR and back end** (`Ir`, `Programs`, `DefUse`, `CodeGen`): syntax and meaning of the IR, the two
  mutually referring halves of the def-use graph, frame layout, 64-bit constants and the prologue.

Passes that work step by step on mutable state are classes (`Dominators.Analysis`, `Mem2Reg.Pass`,
`FuncInfo.Analysis`, `DeadCode.Pass`, `Builder.SysYBuilder`, `DefUse.Value`, `ArrayInit.ArrayBuilder`)
whose methods are proved against specifications that do not mention the algorithm: paths, dominance,
reaching stores, call paths, least closed sets, runs.

How meaning is defined: `Ir.Run` executes at most `fuel` blocks of a function; phis of a block read the
environment in parallel on entry. Arithmetic, index computation and external functions are
parameters (`Ir.World`), so every statement holds for all of them; values of the types i32, i1, float and
pointer are kept apart, and a comparison with zero that is not one of its own type traps. Memory holds globals and the arrays
of the activations; a scalar variable that is loaded from and stored to directly through its alloca
lives in `State.slots`. `Programs.CallFn` runs whole programs, `Source.CallSource` interprets source
programs, in which functions call each other. `clean` records that no variable was read
before it was stored to. Preservation statements compare values, final memory, the history of
external calls, and the path of blocks taken.

The parts fit together in `Compiler.Compile`: `FrontEnd.LowerFunction` delivers functions whose variables
are allocas, loads and stores; `Pipeline.Optimize` takes them; and whatever a call of a source function
returns, the call of the optimised function returns as well. `LoopExample.LoopMeetsAll` gives a function
with a variable changed in a loop and another graph than the builder's that the passes take as well.

## What the proofs found

- `create_dominance_frontier` throws (`std::map::at` on a null immediate dominator) if and only if a
  reachable block with two or more predecessors has an unreachable one (`Dominators.Analysis.Run`). The
  builder makes such graphs, exactly from the bodies in which unreachable code leads back to reachable code
  (`Liveness.NoDeadEdge` is false): it goes on behind an `if` both of whose branches jump away. Every graph
  it makes from `while (a()) { if (b()) break; else continue; }` or from
  `if (a()) { if (b()) return 1; else return 2; } return 3;` makes the analysis throw
  (`FrontEnd.DominatorsDefeated`); `if (a()) return 1; else return 2;` alone does not.
- The computed frontiers are the textbook ones if and only if no reachable block branches to the entry
  (`DominatorTree.FrontiersExactIff`; `DominatorTree.RingMissed` is a graph of two blocks for which they
  are not); immediate dominators are exact on every graph.
- `remove_operand` keeps operands and use lists in agreement if and only if the removed operand is the
  last one or differs from the one behind it (`DefUse.RemoveOperandAgreesIff`). It loses agreement when the
  first of two equal operands goes (`DefUse.RepeatedOperandLost`).
- The builder stops at an assertion (an i1 compared with an i32) exactly on the statements for which
  `SysY.Typed` is false: where a folded comparison, which is a constant of type i1, is the right operand
  of an `&&` whose value is compared with zero without an extension, as in `if (a() && 1 < 2 && b()) return;`
  (`FrontEnd.FoldedComparisonStops`). A condition `a() && 1 < 2` is extended and passes.
- A load takes `back()` of an empty stack, which is undefined in C++, exactly if its variable has a stack
  and no path to the load stores to the variable (`StorePaths.ReachesIffStored`). The variable has a stack
  if a block visited before stores to it or has a phi for it, so this depends on the order of the children
  in the dominator tree: in `int x; if (c()) { x = 1; return 0; } return x;` there is an empty stack if the
  block of the store is visited first (`UnstoredExample.StackEmptyAtLoad`). A function with such a load is
  outside the statements about Mem2Reg. The builder makes none if every declaration has an initializer
  (`Compiler.InitialisedIsStored`).
- Loads of promoted variables stay behind unused after Mem2Reg; only dead code elimination takes them
  and the allocas away (`Composition.ScalarsGone`). Both passes together take away every alloca, load and
  store of a scalar variable or parameter that the builder has made of a function in which every declaration
  has an initializer and no `if` has two branches that both jump away (`Compiler.Compile`).
- Array initializers with braces left out are not laid out as C lays them out (section 6.7.9 of the C
  standard). For every initializer that C accepts, each element gets the place that C gives it if and only
  if the paddings do no harm (`InitLayout.RowsMet`): every nested brace is met with no row begun at its
  depth, and what it holds does not go beyond its size; braces may break the first rule if no element is in
  them or behind them in the surrounding braces, and the second if none is behind them there
  (`InitLayout.PlacesAgreeIff`). If every nested brace is met with no row begun, the builder also has room
  for exactly what C has room for (`InitLayout.MetIsC`). In `int a[2][2][2] = {1, 2, {3, 4}}` C puts 3 at
  `[0][1][0]` and the builder at `[1][0][0]` (`InitLayout.NestedMoved`).

## Model

| member | source | states |
|---|---|---|
| Compiler.Compile | src/SysY/SysY.cpp:41-60 | a source program through the front end, Mem2Reg and dead code elimination: it gets through exactly if no condition compares an i1 with an i32 and no unreachable code leads back to reachable code; whatever a call of a source function returns, the optimised function returns, with the same memory and history of external calls; no access to a variable is left of a function whose declarations all have initializers and which has no `if` with two branches that both jump away |
| Compiler.CallSettles | src/SysY/SysY_builder.cpp:406-504 | what a call of a source function returns, the call of the lowered function returns with every bound from some one on, nested and recursive calls included |
| Compiler.InitialisedIsStored | src/SysY/SysY_builder.cpp:230-249 | of a function in which every declaration has an initializer the builder makes one in which every load of a variable has a store before it |
| Definedness.CallsAreClean | src/SysY/SysY_builder.cpp:230-249 | where every declaration has an initializer, no call of a source function reads a variable without a value: what does not return has trapped or not come to an end |
| SourceExample.FunctionIsTaken | src/SysY/SysY.cpp:41-60 | a function with every kind of statement meets all that is asked of it and all conditions of success |
| Pipeline.Optimize | src/SysY/SysY.cpp:54-60 | Mem2Reg and then dead code elimination on a whole program: it gets through exactly if the dominator analysis does; every call that returns in the original without reading an unstored variable returns the same value, memory and history of external calls in the result; of the promoted program exactly those instructions are left that a chain of uses connects with a terminator, a store or a call of a function that reaches an impure one; no operand of the result has lost its definition, and no access to a promoted variable is left where every block is reachable and every load is stored to on some path. Nothing is assumed of the program between the passes |
| Pipeline.PromoteProgram | src/passes/Mem2Reg.cpp:14-35 | the pass over all functions succeeds exactly if every reachable join has only reachable predecessors; every function then keeps its meaning |
| Pipeline.PromotionPreservesCalls | src/passes/Mem2Reg.cpp:14-35 | calls of the promoted program agree with calls of the original: same value, memory and history, or the same failure |
| Pipeline.EliminateDeadCode | src/passes/DeadCode.cpp:5-17 | purity first, then mark and sweep: purity is exact, each call that returns still returns the same, and an instruction stays if and only if a chain of uses leads from it to a terminator, a store or a call of a function that reaches an impure one |
| UseChains.MarkedIff | src/passes/DeadCode.cpp:19-91 | the marks, said without the pass: what chains of uses connect with a terminator, a store or a call that may have an effect |
| UseChains.UnusedCallGoes | src/passes/DeadCode.cpp:77-91 | a call of a pure function whose result nothing uses is deleted |
| Mem2RegRun.PromoteFunction | src/passes/Mem2Reg.cpp:37-209 | dominators, placement and renaming of one function: it succeeds exactly if the dominator analysis does, and the result takes the same path to the same memory, value, trap or lack of fuel in every run |
| PromotionMeaning.PromotionPreservesRuns | src/passes/Mem2Reg.cpp:86-209 | any function with the specified phis, operands and deleted stores runs in lockstep with the original |
| PromotionMeaning.EdgeAccounted | src/passes/Mem2Reg.cpp:146-166 | each edge is accounted for: a phi for a variable has as its operand for the edge exactly what reaches the end of the predecessor, or none if nothing does; without a phi the same operand reaches both ends of the edge |
| Promotion.ReachUsable | src/passes/Mem2Reg.cpp:104-142 | what reaches a point is defined before it on every path |
| StorePaths.ReachesIffStored | src/passes/Mem2Reg.cpp:109-125 | the value stack of a variable is non-empty at a point if and only if some path from the entry stores to the variable before it |
| UnstoredExample.StackEmptyAtLoad | src/passes/Mem2Reg.cpp:106-138 | a well-formed function with a load whose variable has an empty stack if the block with the store is visited first, and no stack if it is visited second |
| StorePaths.LeastIsClosed | src/passes/Mem2Reg.cpp:57-82 | the least phi placement puts a phi wherever a definition's dominance frontier reaches |
| Mem2Reg.Pass.CollectStores | src/passes/Mem2Reg.cpp:37-55 | exactly the variables stored to, with exactly the blocks that store to them |
| Mem2Reg.Pass.PlacePhis | src/passes/Mem2Reg.cpp:59-82 | the growing worklist ends, and the blocks given a phi for the variable are the least set with the frontiers of its stores that is closed under frontier |
| Mem2Reg.Pass.GeneratePhi | src/passes/Mem2Reg.cpp:37-83 | the iterated dominance frontier for every variable stored to, one empty phi each, and nothing else changes |
| Mem2Reg.Pass.PushPhis | src/passes/Mem2Reg.cpp:93-103 | the block's phis become the tops of their variables' stacks, over what was there |
| Mem2Reg.Pass.RenameInstr | src/passes/Mem2Reg.cpp:106-142 | one instruction: uses of a load become the resolved top of its stack, a store pushes its resolved value; text, stacks and replacements stay what the specification says for this point |
| Mem2Reg.Pass.FillSuccessors | src/passes/Mem2Reg.cpp:146-166 | afterwards each phi of each successor takes, on this edge, the resolved value that reaches the end of the block, and has no operand for the edge if none does |
| Mem2Reg.Pass.RenameChildren | src/passes/Mem2Reg.cpp:169-173 | the dominated subtrees are renamed, each block once, and the stacks come back as they were |
| Mem2Reg.Pass.PopBlock | src/passes/Mem2Reg.cpp:175-199 | the pops undo exactly the pushes of the block |
| Mem2Reg.Pass.EraseStores | src/passes/Mem2Reg.cpp:202-206 | exactly the stores to variables leave the block |
| Mem2Reg.Pass.Rename | src/passes/Mem2Reg.cpp:86-209 | a call renames exactly the blocks that `bb` dominates, once each, keeps the walk's invariant and leaves every stack as it was |
| PromotedForm.PromotionKeepsSsa | src/passes/Mem2Reg.cpp:37-209 | in the result every name still has exactly one definition |
| PromotedForm.OperandsDefined | src/passes/Mem2Reg.cpp:37-209 | every operand of the result is defined in the result |
| PromotedForm.NoPointerPhi | src/passes/Mem2Reg.cpp:64-80 | a variable that holds an array parameter's address gets no phi |
| PromotedForm.FormPreserved | src/passes/Mem2Reg.cpp:86-209 | addresses in the result still come from allocas, globals, arguments, getelementptr and loads, each from earlier ones, as `get_first_addr` needs |
| Composition.ScalarsGone | src/passes/DeadCode.cpp:54-75 | after both passes no load, store or alloca of a promoted variable is left, if every block is reachable and every load has something reaching it |
| Composition.StoredLoadsResolve | src/passes/Mem2Reg.cpp:109-125 | every load has something reaching it if and only if every load has a store to its variable on some path to it |
| Dominators.Analysis.PostOrderVisit | src/passes/Dominators.cpp:73-82 | the recursive visit numbers what it reaches, each block after the children it discovered, and leaves earlier numbers alone |
| Dominators.Analysis.CreateReversePostOrder | src/passes/Dominators.cpp:65-71 | exactly the reachable blocks are numbered, and each but the entry has a predecessor with a larger number |
| Dominators.Analysis.Intersect | src/passes/Dominators.cpp:84-96 | the two fingers stop at the nearest common ancestor in the tentative tree |
| Dominators.Analysis.UpdateBlock | src/passes/Dominators.cpp:39-60 | the new pointer is the nearest common ancestor of all processed predecessors |
| Dominators.Analysis.Pass | src/passes/Dominators.cpp:33-62 | a pass that changes something moves pointers up strictly, so passes end; one that changes nothing has a fixpoint that lost no true dominator |
| Dominators.Analysis.CreateIdom | src/passes/Dominators.cpp:25-63 | the chains of the final tree are exactly the sets of dominators |
| DominatorTree.UpdateStep | src/passes/Dominators.cpp:47-60 | one update keeps all true dominators on the chains and raises the block's pointer strictly |
| DominatorTree.FixpointIsExact | src/passes/Dominators.cpp:33-62 | a fixpoint that lost no true dominator describes dominance exactly |
| DominatorTree.ExactTreeGivesImmediateDominators | src/passes/Dominators.cpp:25-63 | pointers of such a tree are the immediate dominators, and nothing else is |
| DominatorTree.MarkedIsFrontier | src/passes/Dominators.cpp:98-116 | a block other than the entry is marked exactly for the blocks whose frontier it is in, although blocks with one predecessor are never visited |
| DominatorTree.FrontiersExactIff | src/passes/Dominators.cpp:98-116 | the marks are the textbook frontiers if and only if no reachable edge returns to the entry |
| DominatorTree.RingMissed | src/passes/Dominators.cpp:98-116 | a ring of two blocks whose entry is in its own frontier and is never marked |
| Dominators.Analysis.WalkFrontier | src/passes/Dominators.cpp:105-113 | one runner walk: the blocks it marks, and exactly when it runs into a null pointer |
| Dominators.Analysis.CreateDominanceFrontier | src/passes/Dominators.cpp:98-116 | it gets through exactly if every reachable join has only reachable predecessors |
| Dominators.Analysis.CreateDomTreeSucc | src/passes/Dominators.cpp:118-130 | the children of a block are the blocks it immediately dominates |
| Dominators.Analysis.Run | src/passes/Dominators.cpp:5-23 | exact immediate dominators, frontiers and children for the reachable blocks, and exactly when the analysis throws |
| FuncInfo.Analysis.GetFirstAddr | src/passes/FuncInfo.cpp:95-110 | the result is where the address comes from: a chain of address computations leads from it to the argument, and it is itself an alloca, a load, or computed from no pointer |
| FuncInfo.OriginUnique | src/passes/FuncInfo.cpp:95-110 | such a chain back to an origin is unique |
| FuncInfo.Analysis.IsSideEffectInst | src/passes/FuncInfo.cpp:66-94 | true exactly for loads and stores whose address does not start at an alloca |
| FuncInfo.Analysis.TrivialMark | src/passes/FuncInfo.cpp:26-49 | false exactly for declarations, main, functions with array parameters and functions with a side effect |
| FuncInfo.Analysis.Process | src/passes/FuncInfo.cpp:51-63 | impurity spreads to all callers; each newly impure function is queued, and none twice |
| FuncInfo.Analysis.Run | src/passes/FuncInfo.cpp:4-17 | a function is pure if and only if no chain of calls from it ends in a trivially impure one; the impure functions are put into the worklist once each |
| FuncInfo.PlainIsPure | src/passes/FuncInfo.cpp:26-49 | a defined function other than main, without array parameters, that accesses its own variables and arrays only and calls nothing, is pure |
| Purity.PureCallsAreFunctions | src/passes/FuncInfo.cpp:26-63 | a call of a pure function leaves memory and the history of external calls as they were, and its result depends on its arguments alone |
| Purity.QuietRun | src/passes/FuncInfo.cpp:65-79 | a run of a pure function does the same in any surrounding memory and touches only its own objects |
| DeadCode.Pass.MarkOperands | src/passes/DeadCode.cpp:40-52 | the definitions of all operands become marked and are queued if they were not |
| DeadCode.Pass.MarkFunction | src/passes/DeadCode.cpp:19-38 | the marks are the least set with the critical instructions that is closed under operands |
| DeadCode.Pass.SweepFunction | src/passes/DeadCode.cpp:54-75 | deletes what is unmarked, takes its operands out of the use lists, keeps lists and operands in agreement, counts the deleted instructions and reports a change exactly if there is one |
| DeadCode.Pass.RemoveAllOperands | src/lightir/User.cpp:22-28 | exactly the uses by this instruction leave the lists of its operands |
| UseLists.DeletionAgrees | src/passes/DeadCode.cpp:69-72 | lists that agree with the operands still do when instructions have been deleted and their operands removed |
| DeadCode.DeletedUnused | src/passes/DeadCode.cpp:69-72 | after the sweep the use list of every deleted result is empty |
| DeadCode.Pass.Run | src/passes/DeadCode.cpp:5-17 | the do-while ends, with every function as after its first round and use lists still in agreement |
| DeadCode.SweepKeeps | src/passes/DeadCode.cpp:54-75 | an instruction survives if and only if it is marked |
| DeadCode.SweepTwice | src/passes/DeadCode.cpp:8-15 | a second mark and sweep deletes nothing |
| DeadCode.NoDanglingOperand | src/passes/DeadCode.cpp:40-75 | no instruction that is left has a deleted operand |
| DeadCodeMeaning.RunRefines | src/passes/DeadCode.cpp:19-91 | every run that finishes takes the same path to the same memory and value after the sweep |
| DeadCodeMeaning.DeadCodePreservesCalls | src/passes/DeadCode.cpp:5-91 | the same for calls in whole programs, deleted calls of pure functions included |
| LoweringMeaning.LoweringPreservesMeaning | src/SysY/SysY_builder.cpp:456-542 | the lowered function and the interpreter, each with enough fuel, end with the same value, memory and trap, and each ends if the other does, unless a variable is read before it has a value |
| LoweringMeaning.ExpSim | src/SysY/SysY_builder.cpp:753-1245 | the code of an expression evaluates operands and arguments from left to right, leaves variables and earlier results alone, and ends with the interpreter's value, memory or trap |
| LoweringMeaning.StmtSim | src/SysY/SysY_builder.cpp:508-751 | from where its code starts a statement does what the interpreter does, and control ends where the flow (normal, break, continue, return) goes |
| LoweringMeaning.LoopSim | src/SysY/SysY_builder.cpp:660-715 | the same from the head of a loop, for any number of iterations |
| LoweringMeaning.CondSim | src/SysY/SysY_builder.cpp:1247-1346 | a condition evaluates its operands left to right, skips what short-circuit evaluation skips, compares each value with the zero of its type, and goes to the right one of the two targets |
| SysY.LeafTruth | src/SysY/SysY_builder.cpp:609-631 | an int is true if it is not 0, a float if it is not 0.0 |
| Source.EmptyMain | src/SysY/SysY_builder.cpp:486-500 | `int main() { }` returns 0 |
| Builder.SysYBuilder.VisitExp | src/SysY/SysY_builder.cpp:753-1245 | the code of an expression is added to the block, whatever its operands; what is loaded is in scope, and the result can be used behind it |
| Builder.SysYBuilder.VisitInvoke | src/SysY/SysY_builder.cpp:1586-1643 | the code of a call: arguments from left to right, then the call with their values |
| Builder.SysYBuilder.VisitDeclare | src/SysY/SysY_builder.cpp:230-261 | the alloca, then the code of the initializer, in which the variable is not in scope, and the store of its value; the variable is in scope behind it |
| Builder.SysYBuilder.VisitAssign | src/SysY/SysY_builder.cpp:545-583 | the code of the expression and the store of its value to the variable |
| Builder.SysYBuilder.VisitReturn | src/SysY/SysY_builder.cpp:717-741 | the code of the expression and the return of its value, which ends the block |
| Builder.SysYBuilder.VisitParams | src/SysY/SysY_builder.cpp:456-462 | every parameter, scalar or array, gets an alloca and is stored to it, at the start of the entry block |
| Builder.SysYBuilder.VisitLAnd | src/SysY/SysY_builder.cpp:1297-1346 | the code of an and-chain; it fails exactly on an i1 compared with an i32 |
| Builder.SysYBuilder.VisitLOr | src/SysY/SysY_builder.cpp:1247-1295 | the code of an or-chain in new blocks, with `false_stack` as it was at the end; it fails exactly on an i1 compared with an i32 |
| Builder.SysYBuilder.VisitIf | src/SysY/SysY_builder.cpp:595-657 | the code of a selection; all three stacks as they were, and every new block but the merge block terminated |
| Builder.SysYBuilder.VisitWhile | src/SysY/SysY_builder.cpp:660-715 | the code of a loop; all three stacks as they were, and every new block but the last terminated |
| Builder.SysYBuilder.VisitItems | src/SysY/SysY_builder.cpp:508-542 | the code of the items up to the first that jumps away; the block is terminated exactly if one does |
| Builder.SysYBuilder.VisitStmt | src/SysY/SysY_builder.cpp:508-751 | the code of any statement stands where insertion began; old blocks are untouched; it fails exactly on ill-typed conditions |
| Builder.SysYBuilder.VisitFuncDef | src/SysY/SysY_builder.cpp:446-504 | parameters, body and default return stand in the graph; every block of a finished function has one terminator, predecessor and successor lists are transposes with multiplicity, no edge returns to the entry, the stacks are empty, names are defined once, and the blocks of the code are all different |
| Builder.SysYBuilder.AddInstruction | src/lightir/BasicBlock.cpp:36-39 | only ever called with an open block, and adds behind all its instructions |
| Builder.SysYBuilder.CreateCondBr | src/lightir/Instruction.cpp:150-171 | ends the block, and keeps the lists transposes of each other |
| FrontEnd.LowerFunction | src/SysY/SysY_builder.cpp:406-504 | lowering as a whole: it succeeds exactly on well-typed bodies, preserves meaning, delivers a function that both passes take, and one whose dominator analysis gets through exactly if no unreachable code of the body leads back to reachable code |
| FrontEnd.FunctionIsOk | src/SysY/SysY_builder.cpp:456-751 | a finished function is in static single assignment form, every operand is defined before its use on every path, and its variables occur as addresses of loads and stores only |
| FrontEnd.KnownDominates | src/SysY/SysY_builder.cpp:595-715 | the blocks that the builder's invariant keeps for a block are on every path to it, whatever is branched to later |
| FrontEnd.LoweredIsStored | src/SysY/SysY_builder.cpp:230-249 | if every declaration has an initializer and no `if` has two branches that both jump away, every block of the lowered function is reachable and every load has a store on its way |
| Liveness.ReachableIsLive | src/SysY/SysY_builder.cpp:508-751 | which blocks of a lowered function are reachable, by recursion over the statement |
| Liveness.AllReachedIff | src/SysY/SysY_builder.cpp:595-657 | every block is reachable if and only if no `if` has two branches that both jump away |
| Liveness.JoinsReachableIff | src/SysY/SysY_builder.cpp:595-715 | the frontier walk gets through a lowered graph exactly if no unreachable code of the body leads back to reachable code |
| FrontEnd.FoldedComparisonStops | src/SysY/SysY_builder.cpp:1297-1346 | a concrete condition at which the builder stops |
| FrontEnd.DominatorsDefeated | src/passes/Dominators.cpp:107-112 | two bodies that the builder takes and whose lowered graphs all make the frontier walk throw |
| DefUse.Value.RemoveUse | src/lightir/Value.cpp:19-22 | every equal entry goes |
| DefUse.Value.SetOperand | src/lightir/User.cpp:5-14 | the effect on all use lists and operand lists at once |
| DefUse.Value.AddOperand | src/lightir/User.cpp:16-20 | the effect on all lists, and agreement is kept |
| DefUse.Value.RemoveAllOperands | src/lightir/User.cpp:22-28 | the effect on all lists, and agreement is kept |
| DefUse.Value.RemoveOperand | src/lightir/User.cpp:30-40 | the effect on all lists; agreement is kept exactly if the operand behind is another value or missing |
| DefUse.Value.ReplaceAllUseWith | src/lightir/Value.cpp:24-31 | it ends; the use list is empty, every former use now points to the new value, in order, and nothing else changes |
| DefUse.Value.ReplaceUseWithIf | src/lightir/Value.cpp:33-43 | exactly the uses that satisfy the predicate are redirected |
| DefUse.SetOperandAgrees | src/lightir/User.cpp:5-14 | `set_operand` keeps agreement: (u, i) is in the list of v, once, if and only if operand i of u is v |
| DefUse.RemoveAllAgrees | src/lightir/User.cpp:22-28 | `remove_all_operands` keeps agreement |
| DefUse.RemoveOperandAgreesIff | src/lightir/User.cpp:30-40 | exactly when `remove_operand` keeps agreement |
| DefUse.RepeatedOperandLost | src/lightir/User.cpp:30-40 | a user of one value twice with which agreement is lost |
| DefUse.RedirectStep | src/lightir/Value.cpp:24-43 | setting one operand redirects exactly one more use |
| ArrayInit.ArrayBuilder.ComputeSizes | src/SysY/SysY_builder.cpp:268-282 | sizes are the products of the bounds behind each dimension |
| ArrayInit.ArrayBuilder.VisitInitVal | src/SysY/SysY_builder.cpp:365-404 | an element is entered, converted to the type of the array, at the current position; of a brace each element goes to its place, counted from the next boundary of its size, and the position moves behind it; vector and map agree |
| ArrayInit.FillIsLaid | src/SysY/SysY_builder.cpp:365-404 | an initializer that fits is laid out as the nested array it stands for, flattened |
| InitLayout.BracedDepth | src/SysY/SysY_builder.cpp:386-400 | the visitor can take every initializer that C accepts: braces are nested no deeper than there are sizes |
| ArrayInit.ConvertIsNumeric | src/SysY/SysY_builder.cpp:368-379 | conversion of constants: unchanged in an array of float, the nearest integer towards zero in an array of int |
| ArrayInit.ConvertIsTyped | src/SysY/SysY_builder.cpp:372-380 | a value computed at run time is stored in the type of the array, and converted only if it has the other type |
| ArrayInit.ArrayBuilder.Initialize | src/SysY/SysY_builder.cpp:268-289 | exactly the elements of the initializer are entered, each at its place, and the vector is filled up at least to the product of the bounds |
| ArrayInit.ArrayBuilder.LocalArray | src/SysY/SysY_builder.cpp:327-360 | the stores of a local array are the elements at their places with zeros between, converted, and the flattened nested array if the initializer fits |
| ArrayInit.ArrayBuilder.GlobalArray | src/SysY/SysY_builder.cpp:291-326 | the constant entries of a global array, cut to its size: for a constant its number, for an expression nothing usable, zeros between, and the flattened nested array if the initializer fits |
| ArrayInit.ArrayBuilder.LValIndex | src/SysY/SysY_builder.cpp:1189-1211 | the computed index is the row-major offset, although factors of one are left out |
| ArrayInit.RowMajor | src/SysY/SysY_builder.cpp:1164-1211 | the element at given subscripts stands at their row-major offset |
| ArrayInit.FillShape | src/SysY/SysY_builder.cpp:365-404 | a filled array has the shape of its bounds |
| ArrayInit.InitializedElement | src/SysY/SysY_builder.cpp:338-356 | what is stored at the index computed for given subscripts is the element the initializer has there |
| InitLayout.PlacesAgreeIff | src/SysY/SysY_builder.cpp:386-402 | for every initializer that C accepts: all elements get the places that C gives them if and only if no padding comes between a begun row and an element, and no brace is filled beyond its size before an element |
| InitLayout.MetIsC | src/SysY/SysY_builder.cpp:386-403 | if every nested brace is met with no row begun, builder and C have room for the same initializers and give the same places |
| InitLayout.RegularIsMet | src/SysY/SysY_builder.cpp:386-388 | where the rows of each dimension are either all in braces or all without, every nested brace is met with no row begun |
| InitLayout.NestedMoved | src/SysY/SysY_builder.cpp:386-388 | `{1, 2, {3, 4}}` for bounds 2, 2, 2: places 0, 1, 2, 3 in C and 0, 1, 4, 5 in the builder, with 3 at `[1][0][0]` |
| InitLayout.BracedIsWalk | src/SysY/SysY_builder.cpp:386-403 | what C takes row by row, with braces left out, is what one gets by position: a brace initializes the largest sub-array that begins there |
| CodeGen.AlignIsLeast | include/codegen/CodeGenUtil.hpp:13-15 | the bit mask gives the least multiple not below the argument, for powers of two and without wrap-around |
| CodeGen.LowBitsOff | include/codegen/CodeGenUtil.hpp:13-15 | masking with the complement of a power of two less one takes off exactly the remainder |
| CodeGen.Allocate | src/codegen/CodeGen.cpp:5-36 | every argument and every non-void result gets its place in the frame, and the frame its size |
| CodeGen.FrameLayout | src/codegen/CodeGen.cpp:5-36 | value slots and alloca payloads are pairwise disjoint |
| CodeGen.InsideFrame | src/codegen/CodeGen.cpp:5-36 | they lie below the saved registers and inside the frame, slots are aligned to their size |
| CodeGen.PlaceIsHighest | src/codegen/CodeGen.cpp:5-32 | every value gets the highest aligned place below what comes before it, the first one below the two saved words, and the array of an alloca lies right below its value |
| CodeGen.FrameIsLeast | src/codegen/CodeGen.cpp:34-35 | the frame is the least multiple of 16 with everything allocated |
| CodeGen.SavedWordsStay | src/codegen/CodeGen.cpp:5-36 | after the prologue, whatever is stored to a value's place or an allocated array, the words that hold the caller's return address and frame pointer stay as they were |
| CodeGen.LoadLargeInt32 | src/codegen/CodeGen.cpp:56-61 | the two instructions leave exactly the value in the register |
| CodeGen.LoadLargeInt64 | src/codegen/CodeGen.cpp:63-73 | the four instructions leave exactly the value in the register, for every 64-bit value and whatever was there |
| CodeGen.Prologue | src/codegen/CodeGen.cpp:164-178 | both variants reach the same stack pointer, frame pointer and saved words; immediates have 12 bits, and `$t0` is used only for frames beyond them |

## Left out

- Promotion: variables are the allocas that loads and stores access directly; that their addresses do not escape is asked of the input (`Mem2RegRun.FunctionOk`). An alloca owns one place in the frame, so its contents survive when the instruction is executed again.
- Mem2RegRun.PromoteFunction: loads whose variable is stored to somewhere, but on no path to the load, are excluded, because the source reads `back()` of an empty stack there.
- Pipeline.Optimize: only array parameters may be variables that hold addresses, set once in the entry block, as the builder makes them; in unreachable blocks, where dominance says nothing, operands must be results of the function and addresses must be computed before they are used.
- Pipeline.EliminateDeadCode: operands name their definitions, so tables from names to definitions and the lists of callers stand for pointers and use lists; `Pipeline.Optimize` computes both.
- Compiler.Compile: calls that trap or do not end are not compared, since dead code elimination may remove a pure call that would have trapped or not returned; nor are those that read a variable before it has a value. Functions that are lowered to one with a load outside the statements about Mem2Reg are excluded, as there.
- Builder.SysYBuilder.VisitFuncDef: array parameters get their alloca and store and can be handed on in calls; their bounds and accesses to their elements are not modelled.
- Builder.SysYBuilder.VisitExp: expressions are trees of the operations that are emitted, with constants folded and conversions and extensions written out; which operation an operator stands for is not modelled.
- ArrayInit.ArrayBuilder.VisitInitVal: conversions of constants are exact; rounding of an int to a 32-bit float is not modelled.
- DeadCode.Pass.SweepFunction: use lists are those of instruction results; the lists of arguments, globals, functions and blocks are not modelled, and agreement is by membership (`DefUse` counts entries).
- Runs that do not finish or that trap: dead code elimination may remove a pure call that would not have returned, so only runs that finish are compared for it.
- Global variables, local arrays and constants in function bodies: variables are scalars of the function and its parameters; elements and globals are read and written by calls into the unknown. `ArrayInit` has the stores of local arrays by itself.
- Floating-point arithmetic: float values are opaque; comparisons with zero are `fcmp` operations of the world.
- Names and scopes: `Scope` and `find_const` are not part of this model; each declaration has a number of its own, which its alloca has as its name, and results get names when they are created, where the source tells them apart by address.
- Arrays declared const: the position map is not cleared there (line 114 of the builder has the call commented out); only the path of variables is modelled.
- Initializers with braces nested deeper than there are bounds, for which the source reads behind its list of sizes, and array bounds of zero.
- Predecessor and successor lists in `std::set` or pointer order: wherever the source iterates over a set, the model allows any order.
- The destructor of branches and the removal of blocks.
- Frames whose offsets do not fit in 31 bits, and moves of arguments into the frame.
- Code generator functions that throw `not_implemented_error`, assembly text, the assembler.
- Lexer, parser, syntax tree, GVN, IR printing, logging, the driver, the runtime library.

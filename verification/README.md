# SubsetJuliaVM: a verified model

SubsetJuliaVM compiles a subset of Julia to byte code, to WebAssembly and ahead of time. This project models, in
Dafny, the parts of it whose correctness is least visible from the code, and proves what they are for. The Rust
middle end is the centre; the rest are the self-contained algorithms around it.

**The SSA middle end** (`Ssa*.dfy`, `DominatorTree.dfy`).
`SsaModel` has the functions, blocks, operations and terminators, and dominance defined over all paths.
`SsaDominators`, `DominatorTree` and `SsaIdoms` are reachability, reverse post-order and the iterative
Cooper-Harvey-Kennedy computation, shown to end and to compute exactly the path-based dominators.
`SsaVerify` is the verifier, shown to accept exactly the well-formed functions.
`SsaSemantics` gives functions a meaning over arbitrary values, arbitrary operations and an arbitrary outside world,
in which an operation may return, raise or never return; runs are cut at a fuel that is universally quantified.
`SsaSafety` shows accepted functions never read undefined values. `SsaThin`, `SsaFold`, `SsaCompact` and
`SsaCompactPass` are the folding of constant branches and the deletion and renumbering of unreachable blocks.
`SsaRewrite` and `SsaDce` are dead definition elimination; `SsaCse`, `SsaCseRewrite`, `SsaValueNumbering`, `SsaCseMaximal`,
`SsaCseWalk` and `SsaCsePass` are the merging of duplicate pure calls. `SsaDangling` is about the operands the verifier leaves
unchecked. All four passes are shown to keep every run and to keep the verifier's acceptance.

**Around it.** `Gasket` and `GasketDistinct` (the Apollonian gasket sample), `Utf` and `WasmStrings` (strings in and
out of linear memory; UTF-8 as in section 3 of RFC 3629, UTF-16 as in section 2.2 of RFC 2781), `Lcg`, `Coprime` and `Mandelbrot` (benchmark
kernels), `OrphanAudit` (module reachability), `AtomicWrite` (atomic file replacement with any number of writers),
`Animation` and `WarmupScheduler` (browser event protocols), `BraceScopes`, `ArgGrammar` and `ArgScanner`
(source scanners),
`IssueReplay` (historical labels and states), `Fingerprint` (cache fingerprint framing), `JuliaStrings` (escaping).

Code that works in steps is a method with loops or a class with the source's fields, proved against a specification;
the specification's own properties are lemmas. Protocols are step functions over arbitrary event or action sequences,
and the classes' methods are proved to take exactly those steps.

`dafny verify dfyconfig.toml` checks everything.

## Where the code and its promises differ

- The verifier's header says every definition operand refers to an existing definition. The code skips unreachable
  blocks for that check, and so does `SsaVerify.WellFormed`. `SsaDangling.DanglingAccepted` is an accepted function with
  a missing definition; `SsaDangling.AllExistIffSkippedExist` is the exact condition, and `SsaCompactPass.CleaningUp`
  shows that folding and deletion
  together establish it.
- `atomic_write` arms its guard before `create_new`. A call whose temporary name exists already therefore removes that
  file when it fails. `AtomicWrite.UndisturbedIffFresh`: harmless exactly when temporary names are distinct and new.
- `extendTraces` with a frame that loses points leaves the old points, and a redraw of a clip that mixes flat and depth
  traces lists depth columns in the wrong places. `Animation.AlwaysFaithfulIff` has the exact condition for the plot to
  be right in every run (counts beyond a column's length are cut as `slice` does).
- A browser with `requestIdleCallback` but no `cancelIdleCallback` keeps the warm-up after cancelling it.
  `WarmupScheduler.AlwaysTidyIffPaired` and `WarmupScheduler.CancelLeavesNoneIffPaired` have the exact condition.
- The module audit need not end when files include each other. Without a cycle of includes it ends
  (`OrphanAudit.AcyclicEnds`); `OrphanAudit.EndsIffNoLoops` is the exact condition on the files alone when no text file
  is both declared as a module and included, and `OrphanAudit.EndsIffGrounded` the exact one over the run otherwise.
- The audit can miss modules of a text file that is both declared as a module and included
  (`OrphanAudit.MixedMissesAModule`). `OrphanAudit.AuditCrate` shows it misses nothing when there is no such file. This
  is one way only: with such a file it depends on the order of scanning (`OrphanAudit.DeclaredMissesNothing`).
- `labels_at` stops at the first event without a time stamp, which sorts first, while `state_at` skips such events.
  `IssueReplay.LabelsAt` and `IssueReplay.StateAt` state both exactly.
- NULs inside file contents make fingerprint streams ambiguous, and two files can always stand for one file with NULs.
  `Fingerprint.ClearAmongEqualsIff` and `Fingerprint.ClearIff` say exactly which lists cannot be confused.
- A string with a lone surrogate does not survive a trip through linear memory: `WasmStrings.RoundTrip` is exact.

## Model

| member | source | states |
|---|---|---|
| SsaDominators.ComputeReachable | subset_julia_vm_compile/src/compile/ssa_ir/dom.rs:14-26 | a block is in the result exactly when some path of the control-flow graph leads to it from the entry |
| SsaDominators.ReversePostOrder | subset_julia_vm_compile/src/compile/ssa_ir/dom.rs:69-90 | the reverse of the recursive depth-first post-order; exactly the reachable blocks, each once, the entry first, every other block behind one of its predecessors |
| DominatorTree.Intersect | subset_julia_vm_compile/src/compile/ssa_ir/dom.rs:92-116 | the two-finger climb ends and returns the nearest common ancestor: the ancestors of the result are exactly the ancestors shared by both blocks |
| DominatorTree.RelinkShrinks | subset_julia_vm_compile/src/compile/ssa_ir/dom.rs:43-66 | moving a link up its own chain keeps a tree, moves the block strictly closer to the root, and takes ancestors away from other blocks without adding any |
| SsaIdoms.NearestOfPreds | subset_julia_vm_compile/src/compile/ssa_ir/dom.rs:46-60 | folding the processed, reachable predecessors gives their nearest common ancestor, or none when there are none |
| SsaIdoms.TakeTurn | subset_julia_vm_compile/src/compile/ssa_ir/dom.rs:43-66 | one turn of the sweep keeps the invariant of the iteration and either leaves the links as they are or strictly lowers a potential |
| SsaIdoms.FirstLink | subset_julia_vm_compile/src/compile/ssa_ir/dom.rs:43-66 | the first link a block gets keeps the invariant |
| SsaIdoms.MoveLink | subset_julia_vm_compile/src/compile/ssa_ir/dom.rs:43-66 | a changed link always moves towards the root and keeps the invariant |
| SsaIdoms.PotentialDrops | subset_julia_vm_compile/src/compile/ssa_ir/dom.rs:43-66 | the sum of the links' ranks falls by any move towards the root, which is why the fixpoint loop ends |
| SsaIdoms.DominatorOnChain | subset_julia_vm_compile/src/compile/ssa_ir/dom.rs:30-67 | at every moment of the iteration a block's dominators are among its ancestors |
| SsaIdoms.AncestorOnPath | subset_julia_vm_compile/src/compile/ssa_ir/dom.rs:30-67 | once links are stable, every ancestor of a block lies on every path to it |
| SsaIdoms.SettledIsDominatorTree | subset_julia_vm_compile/src/compile/ssa_ir/dom.rs:30-67 | when a sweep changes nothing the ancestors of every reachable block are exactly its dominators |
| SsaIdoms.LinkIsImmediate | subset_julia_vm_compile/src/compile/ssa_ir/dom.rs:28-30 | in such a tree each link is the immediate dominator: a strict dominator that every other strict dominator dominates |
| SsaIdoms.ComputeIdoms | subset_julia_vm_compile/src/compile/ssa_ir/dom.rs:30-67 | the iteration ends for every graph; its keys are the reachable blocks, the entry maps to itself, every other reachable block to its immediate dominator, and the links form the dominator tree |
| SsaIdoms.DominatesByLinks | subset_julia_vm_compile/src/compile/ssa_ir/dom.rs:119-138 | climbing the links answers, for a reachable block, exactly whether every path from the entry to it passes through the other block; an unreachable one only dominates itself |
| SsaVerify.EdgesGiveGraph | subset_julia_vm_compile/src/compile/ssa_ir/verify.rs:60-92 | the edge check makes predecessor lists the exact inverse of successor lists |
| SsaVerify.VerifyEdges | subset_julia_vm_compile/src/compile/ssa_ir/verify.rs:60-92 | accepts exactly when all targets exist, successors are the targets, and predecessors are the ascending list of the blocks that jump there |
| SsaVerify.CollectDefSites | subset_julia_vm_compile/src/compile/ssa_ir/verify.rs:96-109 | succeeds exactly when no id is defined twice, and then records every definition's place |
| SsaVerify.VerifyPhiShape | subset_julia_vm_compile/src/compile/ssa_ir/verify.rs:111-143 | accepts exactly when phis form a prefix of their block and match its predecessor list |
| SsaVerify.CheckOperand | subset_julia_vm_compile/src/compile/ssa_ir/verify.rs:177-224 | an operand is accepted exactly when its definition comes before the use on every path (or the argument index exists) |
| SsaVerify.CheckPhiOperand | subset_julia_vm_compile/src/compile/ssa_ir/verify.rs:226-268 | a phi operand is accepted exactly when its definition reaches the end of the edge's predecessor on every path |
| SsaVerify.VerifyDominance | subset_julia_vm_compile/src/compile/ssa_ir/verify.rs:145-175 | accepts exactly when every use in reachable code is preceded by its definition on every path |
| SsaVerify.Verify | subset_julia_vm_compile/src/compile/ssa_ir/verify.rs:30-58 | the verifier accepts exactly the well-formed functions, a notion stated over paths and not over its data structures, and otherwise names the first stage that fails |
| SsaDangling.AllExistIffSkippedExist | subset_julia_vm_compile/src/compile/ssa_ir/verify.rs:145-175 | for an accepted function all operands name values that exist exactly when those in unreachable blocks and on phi edges from unreachable blocks do |
| SsaDangling.ReachableAllExist | subset_julia_vm_compile/src/compile/ssa_ir/verify.rs:3-19 | where every block is reachable the header's promise holds: all operands of an accepted function exist |
| SsaDangling.DanglingAccepted | subset_julia_vm_compile/src/compile/ssa_ir/verify.rs:145-154 | an accepted function with an operand that names no definition |
| SsaSafety.RunNotStuck | subset_julia_vm_compile/src/compile/ssa_ir/verify.rs:14-19 | from any block a run of an accepted function arrives at, with the values defined so far, it never reads an undefined value |
| SsaSafety.AcceptedNeverStuck | subset_julia_vm_compile/src/compile/ssa_ir/verify.rs:30-58 | a function the verifier accepts never reads a value before its definition, for all arguments, machines and run lengths |
| SsaRewrite.DroppedWellFormed | subset_julia_vm_compile/src/compile/ssa_ir/opt.rs:562-577 | removing any set of definitions nothing kept refers to leaves a function the verifier accepts |
| SsaSemantics.RemovableExact | subset_julia_vm_compile/src/compile/ssa_ir/opt.rs:631-686 | an unread result may be dropped exactly when it is a phi or a reload, or the summary that speaks for it has no effect, does not throw and terminates; the method a bare call resolves to speaks before the name, the name before the builtin table, and nothing for splatted or shadowed calls |
| SsaSemantics.FoldableExact | subset_julia_vm_compile/src/compile/ssa_ir/opt.rs:631-686 | a call may be merged exactly when the summary that speaks for it has the five properties of a pure call |
| SsaDce.CollectRoots | subset_julia_vm_compile/src/compile/ssa_ir/opt.rs:541-560 | the first pass finds every statement's dependencies and marks only what has to stay |
| SsaDce.MarkLive | subset_julia_vm_compile/src/compile/ssa_ir/opt.rs:541-571 | the worklist ends and marks the least set that holds every statement that may not go, every terminator operand and, with a definition, its operands; splatted or shadowed calls, stores, global reads, builtins and opaque code are always marked, and a phi or reload only if something else than phis and reloads needs it |
| SsaDce.EliminateDeadDefs | subset_julia_vm_compile/src/compile/ssa_ir/opt.rs:522-578 | block by block exactly the live statements stay, in order; dead phis and unread reloads go, also those that only read one another, and nothing that may have effects; `changed` tells whether the result is another function |
| SsaDce.EliminationPreservesRuns | subset_julia_vm_compile/src/compile/ssa_ir/opt.rs:492-578 | dead definition elimination changes no run of an accepted function: same outcome, same world, for every length, including endless and raising runs |
| SsaDce.EliminationKeepsWellFormed | subset_julia_vm_compile/src/compile/ssa_ir/opt.rs:570-576 | the verifier still accepts the result, so the debug assertion never fires |
| SsaThin.ThinnedWellFormed | subset_julia_vm_compile/src/compile/ssa_ir/opt.rs:405-420 | narrower terminators, with the edges they no longer take gone from predecessor lists and phis, leave a function the verifier accepts |
| SsaThin.ThinnedStart | subset_julia_vm_compile/src/compile/ssa_ir/opt.rs:405-420 | if the new terminators leave every block as the old ones do, every run is the same although phi entries have moved |
| SsaFold.RemoveEdge | subset_julia_vm_compile/src/compile/ssa_ir/opt.rs:409-420 | drops one predecessor and the matching entry of every phi |
| SsaFold.FoldConstantBranches | subset_julia_vm_compile/src/compile/ssa_ir/opt.rs:377-403 | every branch on a Boolean constant jumps where the constant says, all other terminators stay, the edges not taken go, and `changed` tells whether the result is another function |
| SsaFold.FoldingKeepsWellFormed | subset_julia_vm_compile/src/compile/ssa_ir/opt.rs:377-403 | the verifier accepts the folded function |
| SsaFold.FoldingPreservesRuns | subset_julia_vm_compile/src/compile/ssa_ir/opt.rs:372-403 | folding changes no run of an accepted function on machines where Boolean literals mean themselves |
| SsaCompact.NewIdInjective | subset_julia_vm_compile/src/compile/ssa_ir/opt.rs:450-455 | surviving blocks get different numbers |
| SsaCompact.CompactPreds | subset_julia_vm_compile/src/compile/ssa_ir/opt.rs:422-449 | the renumbered predecessor lists are again the ascending inverse of the successors |
| SsaCompact.CompactDominates | subset_julia_vm_compile/src/compile/ssa_ir/opt.rs:425-427 | what dominates a surviving block survives and still dominates it, so no use can dangle |
| SsaCompact.CompactingKeepsWellFormed | subset_julia_vm_compile/src/compile/ssa_ir/opt.rs:428-490 | the verifier accepts the renumbered function, every block of which is reachable, so the debug assertion never fires |
| SsaCompact.CompactingPreservesRuns | subset_julia_vm_compile/src/compile/ssa_ir/opt.rs:428-490 | deleting unreachable blocks changes no run, block for block under the renumbering |
| SsaCompactPass.PruneBlock | subset_julia_vm_compile/src/compile/ssa_ir/opt.rs:433-448 | removing the dead predecessors one by one leaves exactly the live edges, in order |
| SsaCompactPass.EliminateUnreachableBlocks | subset_julia_vm_compile/src/compile/ssa_ir/opt.rs:428-490 | the whole pass computes that function; it changes something exactly when some block is unreachable |
| SsaCompactPass.CleaningUp | subset_julia_vm_compile/src/compile/ssa_ir/opt.rs:368-490 | folding and deleting together: accepted, the same runs, and all operands exist |
| SsaCse.DominanceAntisymmetric | subset_julia_vm_compile/src/compile/ssa_ir/opt.rs:792-796 | two different reachable blocks cannot dominate each other, so "first occurrence" is well defined |
| SsaCse.DuplicateYields | subset_julia_vm_compile/src/compile/ssa_ir/opt.rs:736-749 | at run time a merged call yields what the dominating call yielded, without touching the world and without a new exception |
| SsaCse.StmtHolds | subset_julia_vm_compile/src/compile/ssa_ir/opt.rs:736-749 | every executed statement keeps the relation between merged values |
| SsaValueNumbering.EqualKeysCongruent | subset_julia_vm_compile/src/compile/ssa_ir/opt.rs:879-941 | two calls with equal keys are the same call on operands that are equal up to merges already made |
| SsaValueNumbering.StepInsert | subset_julia_vm_compile/src/compile/ssa_ir/opt.rs:813-823 | a call with a new key enters the table without disturbing what the table stands for |
| SsaValueNumbering.StepMerge | subset_julia_vm_compile/src/compile/ssa_ir/opt.rs:813-823 | a call whose key is present is merged into a dominating, unmerged call of the same key |
| SsaCseWalk.NumberBlock | subset_julia_vm_compile/src/compile/ssa_ir/opt.rs:806-823 | numbering one block keeps the scoped table right and reports exactly the keys it added |
| SsaCseWalk.NumberCalls | subset_julia_vm_compile/src/compile/ssa_ir/opt.rs:769-832 | the walk of the dominator tree with its explicit stack ends; every merge it records is legitimate, every pure call on the operands of a dominating one, up to merges, is merged, and so is every recomputation of an expression, however deep, that was computed on every path before |
| SsaCsePass.EliminateCommonCalls | subset_julia_vm_compile/src/compile/ssa_ir/opt.rs:769-851 | the whole pass: legitimate merges, and with them every repeated pure call and every recomputed expression of pure calls; exactly the merged definitions disappear, nothing mentions them any more, and the verifier accepts the result |
| SsaCseMaximal.TwinsAlike | subset_julia_vm_compile/src/compile/ssa_ir/opt.rs:832-941 | two calls that compute one expression before a common point have one key and one representative, by induction on the depth of the expression, without reference to what was merged |
| SsaCseMaximal.RecomputationMerged | subset_julia_vm_compile/src/compile/ssa_ir/opt.rs:906-924 | a call that recomputes an expression computed by a dominating call is merged into the representative of that call |
| SsaCseMaximal.DominatorsOrdered | subset_julia_vm_compile/src/compile/ssa_ir/dom.rs:119-138 | of two blocks on every path to a third, one is on every path to the other |
| SsaCseRewrite.MergingKeepsWellFormed | subset_julia_vm_compile/src/compile/ssa_ir/opt.rs:834-850 | rewriting along legitimate merges leaves a function the verifier accepts, so the debug assertion never fires |
| SsaCseRewrite.MergingPreservesRuns | subset_julia_vm_compile/src/compile/ssa_ir/opt.rs:736-851 | merging pure calls changes no run of an accepted function, also when calls may raise or not return |
| Gasket.SwapMutual | web/samples_ir.js:923-927 | the linear swap keeps four circles mutually tangent, as unit vectors of an indefinite product |
| Gasket.ProductMeansTangent | web/samples_ir.js:912-917 | product -1 of two such vectors is tangency of the two circles, signed radii included |
| Gasket.NewIsTangent | web/samples_ir.js:929-936 | each new circle is tangent to the three it was computed from |
| Gasket.ChildKissing | web/samples_ir.js:937-939 | each of the three recursive calls gets mutually tangent circles |
| Gasket.SwapDescartes | web/samples_ir.js:923-927 | the replaced quadruple satisfies Descartes' equation for bends and for bend times center |
| Gasket.ChildGrowing | web/samples_ir.js:931-941 | along every recursion path three times the bend is an integer that strictly grows |
| Gasket.WithinExact | web/samples_ir.js:933-935 | the recursion visits exactly the nodes of the unbounded swap tree whose bend is within the bound |
| Gasket.WithinNoRepeats | web/samples_ir.js:931-941 | each is visited once |
| Gasket.Recurse | web/samples_ir.js:931-941 | the recursion ends and appends the bounded part of the tree, in visiting order, to what the list held |
| Gasket.MakeGasket | web/samples_ir.js:945-956 | the four starting circles followed by the bounded trees of the four starting triangles |
| Gasket.GeneratedTangent | web/samples_ir.js:931-956 | at any depth below any starting triangle: tangent to its three generators, both Descartes equations |
| Gasket.CutOffLosesNothing | web/samples_ir.js:931-956 | for every bound a node of the tree is visited exactly when its circle is within the bound, once |
| GasketDistinct.NodeBeyond | web/samples_ir.js:931-941 | a circle below a triangle is apart from its three circles and farthest from the one on the far side; its first turn shows in these products |
| GasketDistinct.CirclesDiffer | web/samples_ir.js:931-956 | different nodes, of one starting triangle or of two, have different circles |
| GasketDistinct.NoCircleTwice | web/samples_ir.js:945-956 | the output lists no circle twice, the four starting circles included |
| Utf.UnitsOfScalars | pkg-compiler-final/subset_julia_vm_web.js:679 | reading UTF-16 into code points and back is the identity exactly on strings without lone surrogates |
| Utf.PairsInOrder | pkg-compiler-final/subset_julia_vm_web.js:679 | surrogate pairs number the code points above FFFF in order, from the first to the last |
| Utf.LoneReplaced | pkg-compiler-final/subset_julia_vm_web.js:679 | a lone surrogate becomes the bytes EF BF BD |
| Utf.OrderKept | pkg-compiler-final/subset_julia_vm_web.js:679 | encodings sort as code points do and none is a prefix of another (section 1 of RFC 3629) |
| Utf.Utf8Bound | pkg-compiler-final/subset_julia_vm_web.js:702 | three bytes a unit always suffice, one is always needed |
| Utf.AsciiPrefix | pkg-compiler-final/subset_julia_vm_web.js:693-701 | an ASCII prefix is its own encoding and splitting after it cuts no surrogate pair |
| Utf.DecodeEncoded | pkg-compiler-final/subset_julia_vm_web.js:720-732 | the strict decoder reads back every encoded sequence (section 3 of RFC 3629) |
| Utf.EncodeDecoded | pkg-compiler-final/subset_julia_vm_web.js:720-732 | what it accepts is the encoding of what it returns: no overlong forms, no surrogates |
| WasmStrings.EncodeInto | pkg-compiler-final/subset_julia_vm_web.js:704 | writes whole scalar values as far as they fit, and the whole encoding given three bytes a unit, nothing outside |
| WasmStrings.EncodeIntoFallback | pkg-compiler-final/subset_julia_vm_web.js:736-745 | the replacement writes the whole encoding at the start of the view |
| WasmStrings.FastPath | pkg-compiler-final/subset_julia_vm_web.js:689-697 | copies the longest ASCII prefix into the block and nothing else |
| WasmStrings.SlowPath | pkg-compiler-final/subset_julia_vm_web.js:698-709 | grow, encode behind the prefix, shrink: the block holds exactly the encoding, earlier blocks keep their bytes |
| WasmStrings.PassEncoded | pkg-compiler-final/subset_julia_vm_web.js:678-684 | without a reallocator the same result by encoding first |
| WasmStrings.PassString | pkg-compiler-final/subset_julia_vm_web.js:677-712 | for every string the block at the returned address holds its UTF-8, the vector length is its size, every earlier block is unchanged, and no detached view is written |
| WasmStrings.GetString | pkg-compiler-final/subset_julia_vm_web.js:645-732 | decodes the bytes named, resetting the decoder's byte count at the limit |
| WasmStrings.RoundTrip | pkg-compiler-final/subset_julia_vm_web.js:645-732 | a passed string reads back as itself exactly when it has no lone surrogate; a leading U+FEFF survives |
| WasmStrings.Instance.Malloc | pkg-compiler-final/subset_julia_vm_web.js:687 | a fresh block apart from all others; growth detaches the old buffer and keeps every block's bytes |
| WasmStrings.Instance.Realloc | pkg-compiler-final/subset_julia_vm_web.js:702 | a block of the new size, in place or elsewhere, with the old bytes up to the smaller size, the other blocks unchanged |
| Lcg.SeedsFit | benchmarks/ifs_fern_bench.py:20 | from any seed in [0, 2^31) the product plus increment fits 64 signed bits |
| Lcg.Generate | benchmarks/ifs_fern_bench.py:13-20 | the loop computes the n-th iterate, in [0, 2^31), and none of its products plus increment leaves 64 signed bits |
| Lcg.SumDiv | benchmarks/ifs_fern_bench.py:20 | 1 + a + ... + a^(n-1) has exactly as many factors of two as n |
| Lcg.FullPeriod | benchmarks/ifs_fern_bench.py:20 | from any seed the generator is back after n steps exactly when 2^31 divides n |
| Lcg.NoEarlyRepeat | benchmarks/ifs_fern_bench.py:20 | no seed repeats within a period |
| Lcg.EverySeedOccurs | benchmarks/ifs_fern_bench.py:20 | every value in [0, 2^31) occurs, from any start |
| Coprime.MyGcd | benchmarks/calc_pi.py:5-10 | the greatest common divisor: its divisors are the common divisors |
| Coprime.PairsClosedForm | benchmarks/calc_pi.py:13-18 | the coprime pairs in [1,n]^2 number twice the sum of the totients minus one |
| Coprime.CountCoprimePairs | benchmarks/calc_pi.py:13-18 | the double loop counts exactly those pairs |
| Mandelbrot.MandelPoint | benchmarks/mandelbrot_bench_for.py:12-18 | the number of updates before the orbit first leaves the disc, capped |
| Mandelbrot.EscapeCountUnique | benchmarks/mandelbrot_bench_broadcast.py:7-8 | that description fits one number only |
| Mandelbrot.ProductLaws | benchmarks/mandelbrot_bench_for.py:12-18 | the escape map multiplies as complex numbers do: bilinear, commutative, with the square of the imaginary unit minus one |
| Mandelbrot.OnceOutStaysOut | benchmarks/mandelbrot_bench_for.py:12-18 | an orbit that has left the disc never comes back, for every starting point |
| Mandelbrot.CountsTheInside | benchmarks/mandelbrot_bench_for.py:12-18 | the count is the number of orbit points in the disc among the first ones up to the cap |
| Mandelbrot.MandelCount | benchmarks/mandelbrot_bench_for.py:21-28 | the loops add up the counts of the grid, rows going up |
| Mandelbrot.CellDone | benchmarks/mandelbrot_bench_broadcast.py:31-33 | a cell the mask excludes has its final count, so the early break loses nothing |
| Mandelbrot.ArrayStep | benchmarks/mandelbrot_bench_broadcast.py:28-35 | one masked whole-array step advances every cell as the loop would, or finds all cells finished |
| Mandelbrot.TotalsAgree | benchmarks/mandelbrot_bench_broadcast.py:20-24 | the two grids hold the same points, rows reversed, hence equal totals |
| Mandelbrot.MandelbrotGrid | benchmarks/mandelbrot_bench_broadcast.py:17-36 | the array program returns the total of the loop program, for every size and cap |
| OrphanAudit.TurnProgress | scripts/check_orphaned_rs_files.py:126-159 | every turn keeps: reached files are roots or edge targets of scanned files, scanned files' edges are reached, and only included texts are reached without being queued |
| OrphanAudit.NeverTooMuch | scripts/check_orphaned_rs_files.py:122-159 | only what every set closed under the edges of module files holds is reached |
| OrphanAudit.TurnMeasure | scripts/check_orphaned_rs_files.py:126-159 | each turn reaches a new file or lightens the include weight of the queue |
| OrphanAudit.GroundedIffNoLoop | scripts/check_orphaned_rs_files.py:154-159 | a file has an endless chain of includes exactly when following them can come to a file twice |
| OrphanAudit.AcyclicEnds | scripts/check_orphaned_rs_files.py:126-159 | without a cycle of includes the worklist runs empty |
| OrphanAudit.EndsWithoutLoops | scripts/check_orphaned_rs_files.py:126-159 | it runs empty whenever the includes of the files to be scanned, as the files alone determine them, do not loop |
| OrphanAudit.EndsIffNoLoops | scripts/check_orphaned_rs_files.py:126-159 | exactly then, when no text file is both declared as a module and included |
| OrphanAudit.EndsIffGrounded | scripts/check_orphaned_rs_files.py:126-159 | in every crate it runs empty exactly when no file it comes to queue has an endless chain of includes |
| OrphanAudit.EndlessNeverEnds | scripts/check_orphaned_rs_files.py:154-159 | a queued file with an endless chain keeps the queue non-empty for ever |
| OrphanAudit.CycleNotGrounded | scripts/check_orphaned_rs_files.py:154-159 | a cycle of includes is such a chain |
| OrphanAudit.AuditCrate | scripts/check_orphaned_rs_files.py:122-164 | orphans are the files not reached; what is reached is closed under the edges of Rust files, within every set closed under the edges of module files, and equal to the least such set when no text file is mixed; reported as unresolved are only declarations of reached module files none of whose candidates exists, all those of Rust files, and all of them when no text file is mixed |
| OrphanAudit.TurnLedger | scripts/check_orphaned_rs_files.py:144-149 | each turn adds to the report exactly the declarations of the scanned file that have no file |
| OrphanAudit.MixedMissesAModule | scripts/check_orphaned_rs_files.py:149-159 | a crate with a mixed text file where the audit misses a module |
| OrphanAudit.DeclaredMissesNothing | scripts/check_orphaned_rs_files.py:132-159 | a crate with a mixed text file where it misses nothing: that depends on the order of scanning |
| AtomicWrite.ActInv | subset_julia_vm/src/aot_wasm_cli.rs:108-143 | every step of every writer keeps the invariant on names, inodes and phases |
| AtomicWrite.OldOrComplete | subset_julia_vm/src/aot_wasm_cli.rs:108-143 | under every interleaving, failure and crash the destination reads as before or as exactly one writer's full, flushed bytes |
| AtomicWrite.ResultMeaning | subset_julia_vm/src/aot_wasm_cli.rs:90-143 | `Ok` means the rename happened, once; `Err` means it did not, and after a working cleanup the temporary name is gone |
| AtomicWrite.OthersUntouched | subset_julia_vm/src/aot_wasm_cli.rs:100-143 | any other name keeps its file and bytes |
| AtomicWrite.UndisturbedIffFresh | subset_julia_vm/src/aot_wasm_cli.rs:117-135 | because the guard is armed before the file is created, writers leave each other and the directory alone exactly when temporary names are distinct and new |
| AtomicWrite.PendingFile.Drop | subset_julia_vm/src/aot_wasm_cli.rs:100-106 | an armed guard removes the name it holds, a disarmed one nothing |
| AtomicWrite.Abandon | subset_julia_vm/src/aot_wasm_cli.rs:100-141 | leaving the call at any failing step is one failure and one cleanup step of the protocol |
| AtomicWrite.Replace | subset_julia_vm/src/aot_wasm_cli.rs:108-143 | the code of a call only ever takes its own steps of the protocol, and succeeds exactly when no step fails and the temporary name was free |
| Animation.AlwaysOrderly | web/app.js:724-758 | in every run of events at most one interval and one redraw are live, and button, slider and title tell the truth |
| Animation.FramePoints | web/app.js:647-654 | a frame shows of every column exactly the points below its count |
| Animation.AlwaysAnswers | web/app.js:678-758 | in every run each event does what the user expects: the button stops a running animation, keeps the frame of one stopped before the end and goes back to the front at the end; a tick shows the next frame or stops; the slider stops the animation and leads to the frame dragged to |
| Animation.LastDragWins | web/app.js:742-758 | with depth, however often the slider is dragged and whatever ticks and clicks come between, the redraw shows the frame of the last drag |
| Animation.ExtendedIffGrows | web/app.js:680-694 | extending draws the later frame exactly when no trace shrinks |
| Animation.RestyledIffUniform | web/app.js:667-677 | redrawing draws the frame exactly when all traces have depth or none has |
| Animation.AlwaysFaithfulIff | web/app.js:623-759 | the plot is the current frame after every run of clicks, ticks, drags, redraws and failures exactly when no frame loses points of the one before and, with more than one frame, all traces have depth or none has |
| Animation.AutoPlay | web/app.js:729-741 | left alone the player shows frame 0, 1, 2, ... one a tick, then stops, extension failures or not |
| Animation.RenderCompactProgressive | web/app.js:623-630 | renders nothing exactly when there is no frame or no trace; otherwise frame 0 is drawn and the auto-play has begun |
| Animation.Renderer.RestyleTo | web/app.js:667-677 | builds the positional lists of frame k, depth columns only for traces that have them, and applies them |
| Animation.Renderer.ShowFrame | web/app.js:678-696 | draws, extends or falls back as the step function says; the frame is then current, and a failed extension switches to redrawing for good |
| Animation.Renderer.Play | web/app.js:731-741 | stops a running animation where it is; otherwise starts one interval, from the current frame or, at the end, from the front |
| Animation.Renderer.OnInterval | web/app.js:735-739 | one frame further with the interval running, or at the end the interval stops |
| Animation.Renderer.OnInput | web/app.js:746-757 | stops the interval and moves the slider; flat plots show the frame dragged to at once, others request one redraw and keep their frame until then |
| Animation.Renderer.OnRedraw | web/app.js:752 | the coalesced redraw shows the last frame dragged to |
| WarmupScheduler.AlwaysTidyIffPaired | web/app.js:838-877 | handle, type and flag match the one pending callback in every run of events exactly when the browser can cancel the idle callbacks it offers |
| WarmupScheduler.AtMostOnce | web/app.js:818-836 | the warm-up program runs at most once, in every browser |
| WarmupScheduler.CancelLeavesNone | web/app.js:399-417 | where idle callbacks can be cancelled, beginning a run, of a supported sample or not, leaves no callback pending |
| WarmupScheduler.CancelLeavesNoneIffPaired | web/app.js:864-877 | beginning a run leaves no callback pending after every run of events exactly there |
| WarmupScheduler.ScheduledWarms | web/app.js:838-862 | a scheduled warm-up runs, once, when the next one or two callbacks fire |
| WarmupScheduler.WarmsAfterRun | web/app.js:433-437 | after every finished run the warm-up has run or runs when the browser's next callbacks fire |
| WarmupScheduler.RunThenWarms | web/app.js:399-437 | a run that has begun can finish, and the warm-up then runs |
| WarmupScheduler.Warmup.ScheduleWarmup | web/app.js:838-862 | schedules one timer, unless the module is missing, the warm-up has run or is scheduled |
| WarmupScheduler.Warmup.OnTimeout | web/app.js:851-860 | hands over to an idle callback or starts at once |
| WarmupScheduler.Warmup.CancelScheduledWarmup | web/app.js:864-877 | cancels what the handle type names |
| WarmupScheduler.Warmup.BeginRun | web/app.js:399-417 | a run cancels first and does nothing without the module |
| WarmupScheduler.Warmup.EndRun | web/app.js:433-437 | after a finished run the warm-up has run or is scheduled, if the module is there |
| BraceScopes.StackIsEnclosing | scripts/panic_debt_classification.py:402-413 | a full stack holds exactly the braces still open, by the balance of braces after them |
| BraceScopes.BlockEncloses | scripts/panic_debt_classification.py:402-413 | in any text, the brace of a block of characters and nested blocks encloses exactly the positions written inside the block |
| BraceScopes.ScanChar | scripts/panic_debt_classification.py:402-413 | per character the counter and sparse stack hold the depths of the gated braces of the full stack, also after surplus closing braces |
| BraceScopes.InlineTestScopeLines | scripts/panic_debt_classification.py:388-416 | for every text a line is test code exactly when a brace that is the first after a test attribute encloses its start or end |
| BraceScopes.LabelChar | scripts/semantic_id_inventory.py:636-645 | per character each stack entry is the nearest label among the braces up to it |
| BraceScopes.EnclosingBlockKinds | scripts/semantic_id_inventory.py:619-646 | for every text each line gets the label of the innermost labelled brace around its start |
| ArgScanner.RestartAgrees | scripts/check_base_duplicate_signatures.py:147-169 | a scan restarted at a candidate agrees with the scan of the whole text |
| ArgScanner.MatchFrom | scripts/check_base_duplicate_signatures.py:147-169 | finds the true closing parenthesis outside strings, or there is none; for a group written with literals and brackets inside, the parenthesis it was written with |
| ArgScanner.MatchUnique | scripts/check_base_duplicate_signatures.py:147-169 | a parenthesis has one match only |
| ArgScanner.FindArglist | scripts/check_base_duplicate_signatures.py:117-170 | the last candidate that closes, with its own closing parenthesis; none exactly when no candidate closes; a name followed by a parenthesized group of characters, literals and groups is found with the parenthesis that closes it in writing, unless a later candidate closes |
| ArgScanner.FirstOfDotted | scripts/check_base_duplicate_signatures.py:137-142 | the first component of a dotted name is what stands before its first dot |
| ArgScanner.SplitParams | scripts/check_base_duplicate_signatures.py:201-236 | cuts at exactly the top-level commas outside strings, losing only blanks and empty pieces; parameters written as characters, literals with escapes and bracketed groups, with any blanks around them and commas between them, come back as written |
| ArgScanner.ListingSplit | scripts/check_base_duplicate_signatures.py:201-236 | the split of a rendered parameter list is the list of rendered parameters, for a grammar that names no scan |
| ArgScanner.PiecesLevel | scripts/check_base_duplicate_signatures.py:207-226 | scanning rendered pieces returns to the state it began in and never goes below its depth |
| ArgScanner.SplitAgain | scripts/check_base_duplicate_signatures.py:201-236 | a parameter split again is itself |
| ArgScanner.JoinSplit | scripts/check_base_duplicate_signatures.py:201-236 | closed parameters joined by commas are split into the same parameters |
| IssueReplay.LabelsAt | scripts/quality_issue_report.py:275-288 | with a time stamp on every event, last writer wins per label at the cutoff; with a stamp missing anywhere no label at all |
| IssueReplay.StateAt | scripts/quality_issue_report.py:291-309 | closed, and since when, by the last closing or reopening at the cutoff; events without a stamp do not matter |
| IssueReplay.FutureIrrelevant | scripts/quality_issue_report.py:275-309 | an event after the cutoff, inserted anywhere, changes nothing |
| IssueReplay.ListingIrrelevant | scripts/quality_issue_report.py:275-309 | listing the same events otherwise changes nothing when the times of events on one topic are distinct |
| IssueReplay.WeeklyRow | scripts/quality_issue_report.py:463-517 | the cohort splits into closed and open issues, every class count is the number of issues of that class, and the quick closings are among the closed |
| Fingerprint.BuildFingerprint | subset_julia_vm/build.rs:350-372 | the hasher gets the frames of the sorted files, and the build stops exactly when a file cannot be read |
| Fingerprint.ListingOrderIrrelevant | subset_julia_vm/build.rs:239-260 | directory order does not matter |
| Fingerprint.ParseStream | subset_julia_vm/build.rs:357-370 | NUL-free files can be read back from the stream |
| Fingerprint.StreamInjective | subset_julia_vm/build.rs:357-370 | different NUL-free file lists give different streams |
| Fingerprint.ClearAmongEqualsIff | subset_julia_vm/build.rs:357-370 | with NUL-free paths, no other list of as many files has the same stream exactly when there is at most one file or no contents hold a NUL |
| Fingerprint.ClearIff | subset_julia_vm/build.rs:357-370 | no other list of any length has it exactly when there is no file, or one file with at most one NUL |
| JuliaStrings.EscapeRustIsEach | scripts/generate_unicode.py:125-127 | the two replacements in this order escape each character once |
| JuliaStrings.OrderMatters | scripts/generate_unicode.py:125-127 | the other order differs on a quote |
| JuliaStrings.JuliaUnescape | scripts/generate_unicode.py:40-90 | the index loop computes the recursive reading; a text written with escapes reads as what they mean, and fails exactly on a number that is no code point |
| JuliaStrings.RoundTrip | scripts/generate_unicode.py:40-90 | unescaping an escaped string gives it back, for every string |
| JuliaStrings.SpelledMeansMeant | scripts/generate_unicode.py:40-90 | every sequence of characters, escapes, numbers in four or eight hexadecimal digits of either case, and backslashes that escape nothing reads as what it means |
| JuliaStrings.HexRead | scripts/generate_unicode.py:66-86 | reading hexadecimal digits gives the number they write |

## Left out

- Effect inference: what the summaries say about callees is taken as given. `SsaSemantics.Sound` is the exact
  assumption, used by the two theorems on runs: removable operations return and touch nothing, foldable calls depend on
  their arguments alone.
- SsaDce.EliminationPreservesRuns: compares runs of equal fuel, counted in blocks, so it speaks of finite prefixes of
  endless runs and not of a limit.
- SsaDce.EliminateDeadDefs: requires unique definition ids, which the verifier guarantees for every function the passes see.
- The names a function shadows (its parameters, its locals and what barriers rebind): an input of the effect context.
- The static dispatch resolver: the summary of the method a call resolves to is an input of the effect context.
- Constant folding of statements and trivial phis, the round limit of the optimizer's loop, the planner and the
  construction of SSA from the core IR: not part of this model.
- Integer widths of block and value ids: ids are unbounded natural numbers.
- Gasket: bends are exact reals; floating-point rounding in the sample is not modelled.
- Mandelbrot: exact complex numbers, so no overflow or NaN; a grid of width or height 1 divides by zero in both programs
  and is excluded.
- Lcg: the fern's coordinates and their sums are left out; only the seed is modelled.
- WasmStrings: the allocator is a contract with one implementation that grows memory on demand; running out of memory and
  addresses beyond 32 bits are not modelled.
- OrphanAudit: which files a file's text declares or includes is an input; the patterns and the search for path
  attributes are not modelled.
- OrphanAudit.AuditCrate: requires that the includes of the files to be scanned do not loop, without which it need not
  end; a method cannot describe a run that never returns, so the other crates are covered by the lemmas on turns.
- AtomicWrite: a crash loses no flushed data and keeps the directory as it is; what the disk does with unflushed data
  after a power failure is not modelled, and neither is the system clock that makes the temporary names.
- Animation: of the plotting library, the effect of its three calls on data: positional lists go to the traces they are
  listed for, a short list starts over, and a failed extension spoils at most the columns it was given. Frames have a
  count for every trace.
- WarmupScheduler: the user's program and the display of its result happen between the events `Run` and `Finish`.
- BraceScopes: whether a line is a test attribute or carries a label is an input.
- ArgScanner: comment stripping, default values and type normalisation are left out.
- IssueReplay: time stamps are numbers whose order is the order of the strings (uniform stamps of section 5.1 of RFC
  3339); titles, classification rules and medians are left out.
- Fingerprint: the hash itself, and walking the directories; the path order is any total order.
- The closure of test-only files, balanced value types, the grouping of generated tests, and the remaining parts of the
  modelled scripts: they would only add easier members.
- The virtual machine, the byte-code and ahead-of-time code generators, caches, the remaining scripts, and all network,
  process and rendering code.

# Verified models of PlaidML's concurrency, tensor lowering and bookkeeping

This project models the parts of PlaidML whose correctness is not visible from reading one function, and proves what
they are for. It has five groups of modules.

**Protocols.** `Gates` is the cancellation gate of `base/context`: any number of rundowns enter and leave while any
number of threads close it. Every mutex-delimited block is one atomic step, the callback loop of `Close` runs between
two such blocks, and the methods of the class `Gate` are those blocks in place. Falling asleep on the condition
variable, being notified and waking up spuriously are steps of their own. `MapCompletions` puts the map call of
`plaidml.cc` on top, where completion, exception, refused entry and cancellation race for one C callback; what it
promises without the device's help and with it are separate theorems. `Syncs` is the blocking form of that call.
`Interning` is the table of interned values with deleters that run late and out of order.

**The operation graph.** `Composition` is `tile.compose`, a worklist over a stack that holds duplicates, which is shown to
bind in the order of a recursive depth-first walk; `Slices` is the compiler from Python index keys to index formulas.

**Lowering.** `Contractions` gives a semantics to the TILE that the operation library emits: affine index expressions as
a syntax tree, and contractions in which every output cell aggregates over all index assignments whose accesses are in
range. `Padding`, `ConvolutionPlans`, `Convolutions`, `GroupedConvolutions`, the four `Winograd` modules, `Pooling`,
`Concatenation` and `Reshaping` model what the operations emit and prove that it computes the intended operation.
`Sums`, `Boxes` and `BoxSums` are the finite sums they need.

**Layout and caches.** `Layout` covers packed strides and element access, `ParameterOrders`, `LruCaches` and `Invokers`
the invoker with its two caches.

**Transfer.** `Transfer` wraps typed values into JSON values and reads them back.

Loops and objects of the source are methods and classes here, each proved against a function; the theorems are lemmas
about those functions, or invariants over whole runs.

What the code does where its own description suggests otherwise is stated and proved as it is:

- The Winograd branch ignores explicit `pads` (`WinogradPlans.ExplicitPadsAreIgnored`, with the input `ShiftedByPads`)
  and the kernel's format (`WinogradPlans.ChannelsFirstIsMisread`, with the input `MisreadExample`), and its (4, 3)
  decimals only approximate the identity (`WinogradMatrices.WrittenIsInexact`). The block size is always 6, so these are
  the matrices in use.
- Empty slices may be declared with a negative size (`Slices.EmptySlices`, with the input `NegativeSizeExample`), and an
  int key out of range reads zeros (`Slices.SlicesLikePython`, with the input `OutOfRangeReadsZero`).
- `Reshape` forgets a first size of -1 when a second one follows (`Reshaping.WhatIsEnforced`).
- `Concatenate` lets a shape of lower rank through its check; its offsets fail then (`Concatenation.MakePlan`,
  with the input `LowerRankPasses`).
- `add_dimensions` divides by zero for a zero size, where the Python shapes do not (`Layout.AddDimensions`).
- A failed allocation leaves an entry in the intern table (`Interning.LeftByThrows`).
- The invoker's cache keys leave out the constness of tensors (`Invokers.KeysIgnoreConstness`).
- JSON loses empty containers except in fields that allow null and default to them (`Transfer.RoundTrip`,
  `Transfer.OnlySurvivorsComeBack`).

## Model

| member | source | states |
|---|---|---|
| `Gates.ClosedForGood` | base/context/gate.cc:25-34 | once the gate is found closed it stays closed, and a rundown that has not entered never will |
| `Gates.Gate.TryAddRundown` | base/context/gate.cc:67-74 | an open gate takes the callback at the end of its list; a closed one refuses and keeps its state |
| `Gates.Gate.LockForClose` | base/context/gate.cc:39-48 | the first block of Close: the first caller takes the whole list and its size as the count, a later one changes nothing |
| `Gates.Gate.CompleteClose` | base/context/gate.cc:54-59 | the second block of Close: the close is complete, and the caller must finalize exactly when the count is zero |
| `Gates.Gate.RemoveRundown` | base/context/gate.cc:76-104 | erase while open, wait until the close is complete, then count down; the last one must finalize |
| `Gates.StepInv` | base/context/gate.cc:36-104 | every atomic step of every thread keeps the invariant: the count is the number of rundowns inside, callbacks run in snapshot order, finalization is owed by exactly one thread |
| `Gates.RunInv` | base/context/gate.cc:36-104 | so does every interleaving of any number of rundowns and Close calls |
| `Gates.FinalizedOnceAndLast` | base/context/gate.cc:54-63 | in every run set_value is called at most once, and only with the gate closed, all callbacks of the snapshot returned and every entered rundown gone; the over-dereference branch is never taken |
| `Gates.CompletedCalls` | base/context/gate.cc:49-53 | once the close is complete each callback has been entered and left exactly as often as it was due |
| `Gates.CloseTakesTheRegistered` | base/context/gate.cc:44-46 | the closing step takes exactly the callbacks of the rundowns inside the gate |
| `Gates.CallbacksRunExactlyOnce` | base/context/gate.cc:49-53 | a callback registered when the gate closes runs exactly once, one that is not never runs |
| `Gates.SnapshotFixed` | base/context/gate.cc:44-53 | the snapshot never changes after the closing step |
| `Gates.CallbacksInOrderOfEntry` | base/context/gate.cc:44-53 | Close takes the rundowns in order of entry: when the callback of a later one is entered, that of an earlier one in the snapshot has returned |
| `Gates.NoCallbackAfterRemoval` | base/context/gate.cc:76-104 | once RemoveRundown has returned, its callback is not running and is never entered again |
| `Gates.StepWork` | base/context/gate.cc:36-104 | every step but a spurious wake-up lowers a natural-number measure of what is left to do |
| `Gates.RunsAreFinite` | base/context/gate.cc:36-104 | hence the length of every run is bounded, but for two steps for each spurious wake-up |
| `Gates.QuiescentIsDone` | base/context/gate.cc:36-104 | a state in which no thread can step has nothing left to do: nobody sleeps in the wait, because a sleeper means that the close is not complete or its notification is still to come |
| `Gates.FinalizedInTheEnd` | base/context/gate.h:112-114 | in such a state the promise is set exactly when the gate is closed and every rundown that entered is destroyed |
| `MapCompletions.MapCompletion.ClaimCallback` | plaidml/plaidml.cc:389-396 | the first claimant, and only the first, gets to invoke the callback |
| `MapCompletions.JointStepInv` | plaidml/plaidml.cc:365-411 | every step of caller, continuation and closing thread keeps the joint invariant of gate and completion |
| `MapCompletions.JointRunInv` | plaidml/plaidml.cc:443-482 | so does every interleaving |
| `MapCompletions.CallbackFiresOnce` | plaidml/plaidml.cc:389-399 | in every run, however completion, exception, refused entry and cancellation race, the C callback fires at most once, and once by the time the completion is destroyed; a mapping is handed to it or freed, never both; OnCancel never touches a destroyed completion |
| `MapCompletions.MapOutcome` | plaidml/plaidml.cc:374-379 | the outcome of a finished map call: one callback, and no mapping unaccounted for |
| `MapCompletions.MappingIsDelivered` | plaidml/plaidml.cc:374-379 | in every run a mapping is freed only if cancellation was called first, and then it called back instead; one that was created and not freed is delivered by destruction, with no other callback; without a mapping the one callback carries none |
| `MapCompletions.CreatedWhenReady` | plaidml/plaidml.cc:374-375 | a mapping is created exactly when the device makes the view ready |
| `MapCompletions.OpenGateDelivers` | plaidml/plaidml.cc:374-396 | while the gate is open nothing is freed, and a finished call has handed over the view if it became ready and called back without one otherwise |
| `MapCompletions.JointStepWork` | plaidml/plaidml.cc:457-480 | every step but a spurious wake-up lowers a measure |
| `MapCompletions.JointRunsAreFinite` | plaidml/plaidml.cc:457-480 | hence every joint run is finite, spurious wake-ups apart |
| `MapCompletions.CloseGoesOn` | base/context/gate.cc:49-65 | with OnCancel as its callbacks a Close in progress can always go on, without the device |
| `MapCompletions.EveryCallIsAnswered` | plaidml/plaidml.cc:384-399 | cancellation alone is enough: once the gate is closed and no thread of the program can step, every map call that began has called back exactly once, even if the device never resolves its future |
| `MapCompletions.EveryCallCompletes` | plaidml/plaidml.cc:443-482 | if the device resolves every future, then in a state in which nothing is left to do every map call that began has called back exactly once and its completion is destroyed |
| `MapCompletions.FinalizedAfterTheCalls` | base/context/gate.h:112-114 | and the gate is finalized exactly when it is closed and no other rundown is inside |
| `Syncs.RunInv` | base/util/sync.h:38-62 | every interleaving keeps the mutex exclusive and a sleeper still to be notified |
| `Syncs.WaitReturnsTheCallbacksResult` | base/util/sync.h:48-62 | the callback has left the object before the waiter frees it, and what is returned is the stored result |
| `Syncs.ValueIsKept` | base/util/sync.h:45-46 | the value the callback was given is the one returned, whatever happens in between |
| `Syncs.WaitGoesOn` | base/util/sync.h:54-60 | no wake-up is lost: until the waiter has returned some thread can step, and nobody sleeps once the callback has left |
| `Syncs.WaitEnds` | base/util/sync.h:54-61 | after the result is set every step brings the return nearer |
| `Interning.InternmentMap.Make` | base/util/intern.h:68-101 | insert, lock the weak pointer or create and count: the specified state and the specified object |
| `Interning.InternmentMap.RunDeleter` | base/util/intern.h:74-83 | count down and erase the entry at zero |
| `Interning.StepInv` | base/util/intern.h:68-101 | every make, failed make, copy, drop and deleter keeps the invariant: an entry's count is the number of incarnations whose deleter has not run |
| `Interning.DeletersAreSafe` | base/util/intern.h:64-101 | in every run no deleter meets an erased entry |
| `Interning.UniqueWhileAlive` | base/util/intern.h:68-72 | live objects have the same key exactly when they are the same object |
| `Interning.RefsAreHeld` | base/util/intern.h:68-101 | in every run the references of an object are the makes that returned it and its copies, less its drops; the one that creates it counts as the first |
| `Interning.OverlappingMakesAgree` | base/util/intern.h:68-99 | the object that a make returned stays the answer for its key for as long as it has been returned and copied more often than dropped, through any other activity |
| `Interning.LastOfItsNode` | base/util/intern.h:80-82 | the deleter that brings the count to zero is the last one holding the entry |
| `Interning.TableDrains` | base/util/intern.h:74-83 | without failed allocations the table is empty exactly when all deleters have run |
| `Interning.LeftByThrows` | base/util/intern.h:68-87 | in every run an entry has count 0 exactly when the insert that made it was followed by a failed allocation and its key has had no incarnation since |
| `Interning.TableDrainsTo` | base/util/intern.h:74-83 | once all deleters have run these are exactly the entries that remain |
| `Composition.OpBindings.Unbound` | plaidml/tile.py:1048 | the values still missing, in order and as often as they are listed |
| `Composition.MissingOfBoth` | plaidml/tile.py:1048 | what is missing of two lists one after the other is what is missing of each, one after the other |
| `Composition.Visit` | plaidml/tile.py:1036-1054 | one iteration: it binds the operation on top and appends its side effects, defers it under what it needs, drops it, or refuses a foreign value; a natural-number measure falls, and what is left of the depth-first walk stays the same |
| `Composition.BindAll` | plaidml/tile.py:1036-1054 | the loop terminates on every acyclic graph and binds exactly the reachable operations, each once, with its meaning, in the order of the recursive depth-first walk |
| `Composition.WalkDeferred` | plaidml/tile.py:1048-1052 | pushing an operation back under what it waits for, duplicates and all, does not change the walk |
| `Composition.RootsAndNeeds` | plaidml/tile.py:1027-1044 | the walk starts from outputs, given updates and inputs, and an operation needs its inputs and then its side effects, in the order listed |
| `Composition.BoundOnceAfterNeeds` | plaidml/tile.py:1048-1053 | in the binding order an operation occurs once and after everything it needs |
| `Composition.EverythingBound` | plaidml/tile.py:1036-1054 | every operation reachable from the roots is bound |
| `Composition.EffectsBound` | plaidml/tile.py:1054 | every side effect that is appended has both its values bound |
| `Composition.EffectsInBlocks` | plaidml/tile.py:1054 | the updates are the given ones and then the side effects of each operation in the binding order, one block after the other, pairs in their own order |
| `Composition.NothingRefused` | plaidml/tile.py:1045-1047 | no refusal unless some reachable operation needs a foreign value |
| `Composition.MeaningIsRankFree` | plaidml/tile.py:260-289 | what a value is bound to does not depend on the order of binding |
| `Composition.MeaningUnfolds` | plaidml/tile.py:260-289 | an output of an operation means the operation applied to the meanings of its inputs, in their order |
| `Composition.BindNamed` | plaidml/tile.py:1058-1062 | inputs and outputs are handed over under their names with their meanings |
| `Composition.BindPairs` | plaidml/tile.py:1063-1064 | updates are handed over pairwise with their meanings |
| `Composition.Compose` | plaidml/tile.py:1027-1066 | the whole function: an error exactly when a reachable operation needs a foreign value, otherwise the meanings of inputs, outputs, given updates and, once each and block by block in the order of the walk, the side effects of the bound operations |
| `Slices.ParseSlice` | plaidml/tile.py:471-570 | every outcome of the parser: int keys, non-ints, zero steps, slices beyond the rank, and the numerator, step and start of a slice |
| `Slices.BoundsAre` | plaidml/tile.py:495-557 | what a bound of a Python slice means: a place counted from either end, moved to the nearest one that a slice of that direction can start from or stop at |
| `Slices.SpanIsPython` | plaidml/tile.py:489-570 | for every size and slice the computed count is positive exactly when Python's slice is not empty, and then size, emitted range and start are Python's |
| `Slices.SpanInBounds` | plaidml/tile.py:489-570 | all of its indices are in bounds |
| `Slices.EmptySlices` | plaidml/tile.py:420-434 | an empty slice is declared with size 0 exactly when it ends less than a step before it starts; otherwise the declared size is negative |
| `Slices.NegativeSizeExample` | plaidml/tile.py:432-434 | a slice from 5 to 2 of ten elements is declared with size -3 |
| `Slices.CeilingIs` | plaidml/tile.py:422-434 | when the integer text of a range and the float ceiling of the declared size agree |
| `Slices.Expand` | plaidml/tile.py:387-408 | one ellipsis stands for as many full slices as the key lacks; two, or a key too long, are refused |
| `Slices.EllipsisIsKept` | plaidml/tile.py:398-408 | the axes an ellipsis covers keep their size and are addressed by their own output index; an item j places before the end addresses the axis j places before the end |
| `Slices.Compile` | plaidml/tile.py:409-444 | which keys compile, the first error of the others, and the sizes, ranges and formulas of all axes |
| `Slices.SliceOf` | plaidml/tile.py:387-444 | the whole constructor: what an accepted key with or without an ellipsis is compiled to, and every error |
| `Slices.AxisIsPython` | plaidml/tile.py:412-443 | the formula of an axis evaluates to Python's index |
| `Slices.SlicesLikePython` | plaidml/tile.py:409-450 | every element of the emitted output is the input's at Python's index; an int key out of range reads zeros instead of failing |
| `Slices.OutOfRangeReadsZero` | plaidml/tile.py:471-487 | for instance element 7 of 5 is 0 |
| `Slices.IntsFromBothEnds` | plaidml/tile.py:412-419 | an int names an element from the front or, when negative, from the end |
| `Layout.PackedStrides` | plaidml/__init__.py:1297-1318 | the divide-down loop yields the product of the later sizes for every axis, or zero strides if a size is zero |
| `Layout.AddDimensions` | plaidml/plaidml++.h:131-142 | the same in C++, which divides by zero exactly when a size is zero |
| `Layout.OffsetsAreABijection` | plaidml/__init__.py:1297-1305 | in-range index vectors and buffer positions correspond one to one |
| `Layout.FlattenUnflatten` | plaidml/__init__.py:1297-1305 | every position is the offset of an in-range index vector |
| `Layout.UnflattenFlatten` | plaidml/__init__.py:1297-1305 | and of no other |
| `Layout.GetDimIdx` | plaidml/__init__.py:1105-1113 | the offset of a key with at most one component per axis, all in range; an error otherwise |
| `Layout.Locate` | plaidml/__init__.py:1115-1130 | the buffer element that a key names, or an index error: a position counts from the front or, when negative, from the end, and a vector key is looked up axis by axis |
| `Layout.FullKeysAreAccepted` | plaidml/__init__.py:1119-1130 | with packed strides a full key is refused only for a component out of range, and names its row-major element |
| `Layout.At` | plaidml/plaidml++.h:286-298 | the offset of a full index vector, and an error for any other |
| `Padding.TextAgrees` | plaidml/op.py:119-142 | the emitted size and padding text evaluate to the declared numbers |
| `Padding.MaximalWindows` | plaidml/op.py:119-127 | explicit and VALID padding: the largest number of windows that fit, refused exactly when the input is more than a stride short of one |
| `Padding.WindowsInRoom` | plaidml/op.py:119-127 | the last window lies within the padded input and one more would not |
| `Padding.SamePadding` | plaidml/op.py:128-137 | SAME: ceil(input / stride) windows, never refused, and the two variants' leading paddings add up to what the last window lacks, the odd one leading in SAME_LOWER |
| `Padding.EveryWindowMeetsTheInput` | plaidml/op.py:124-137 | with SAME or VALID padding no window lies wholly in the padding |
| `Padding.ExplicitWindows` | plaidml/op.py:119-123 | with explicit padding that holds exactly when it holds of the first and the last window |
| `ConvolutionPlans.ComputePadding` | plaidml/op.py:487-514 | the axes' sizes and paddings, or the error of the first axis that has one |
| `ConvolutionPlans.DataParts` | plaidml/op.py:337-365 | batch, channel and spatial sizes sit where the data format says |
| `ConvolutionPlans.KernelParts` | plaidml/op.py:366-456 | and the kernel's where its format says |
| `ConvolutionPlans.ForwardShapes` | plaidml/op.py:1226-1242 | the plan has the caller's shapes exactly when data and kernel agree on the input channels |
| `ConvolutionPlans.TransposeShapes` | plaidml/op.py:1392-1431 | likewise for the transposed convolution; only the requested shape's channels go unchecked |
| `ConvolutionPlans.PlanTextAgrees` | plaidml/op.py:487-514 | declared output sizes and emitted text are the same numbers |
| `ConvolutionPlans.ExplicitWindowsFit` | plaidml/op.py:487-514 | explicit pads shift the windows of an axis by the leading pad, every tap of every dilated window falls into the padded input, and one more window would not fit |
| `ConvolutionPlans.PlansMeet` | plaidml/op.py:549-569 | the transposed convolution accepts exactly the shapes that the forward one connects, with the same numbers |
| `ConvolutionPlans.VerifiedShapesAreAdjoint` | plaidml/op.py:1421-1444 | whatever shapes it verifies, it is the adjoint of the convolution with the same arguments |
| `Convolutions.LoweredAccesses` | plaidml/op.py:718-726 | what the emitted index lists evaluate to |
| `Convolutions.LoweringIsConvolution` | plaidml/op.py:1277-1292 | the emitted contraction is the convolution of the zero-extended input, for every rank, stride, dilation, padding and both formats |
| `Convolutions.OneMeetsOne` | plaidml/op.py:718-726 | a single element of the data and one of the kernel meet in exactly the output cells where, on every axis, the data position is stride times output position plus dilation times kernel position less padding: all ranks, strides, dilations and positions |
| `ConvolutionPlans.ConvolutionOfOnes` | plaidml/op.py:1226-1292 | the same from the arguments of the convolution to its result, with the axes of data, kernel and output written out for both formats |
| `Convolutions.TransposeIsAdjoint` | plaidml/op.py:1433-1444 | <conv(I, K), O> = <I, convT(O, K)> for all tensors of the plan's shapes |
| `Contractions.Adjoint` | plaidml/op.py:1433-1444 | exchanging output and left input transposes any contraction |
| `Contractions.CellAsBox` | plaidml/op.py:1277-1279 | a cell is the sum over the box of its free variables of the zero-extended product |
| `GroupedConvolutions.GroupAccesses` | plaidml/op.py:700-709 | input channel g * GCI + gci, output channels (g, gco) |
| `GroupedConvolutions.GroupedCell` | plaidml/op.py:1277-1279 | a cell of the grouped contraction sums its own group's channels |
| `GroupedConvolutions.InnerKernelAt` | plaidml/op.py:1267-1271 | where the reshaped kernel's elements come from |
| `GroupedConvolutions.OutputAt` | plaidml/op.py:1272-1276 | output channel co is element co % GCO of group co / GCO |
| `GroupedConvolutions.ExactWhenDivisible` | plaidml/op.py:603-649 | the group formulas are consistent exactly when GCI divides CI and the number of groups divides CO |
| `GroupedConvolutions.OneChannelPerGroup` | plaidml/op.py:603-649 | with a (G, GCO) kernel they are consistent exactly when CI = G |
| `GroupedConvolutions.GroupedIsBlockDiagonal` | plaidml/op.py:1267-1292 | a grouped convolution is the dense one with the block-diagonal kernel, for every rank and all formats |
| `WinogradTransforms.FastIsDirect` | plaidml/op.py:1308-1314 | a triple with the one-dimensional identity turns the pipeline into the direct sum for all data and kernels |
| `WinogradTransforms.ExactIfDirectOnUnits` | plaidml/op.py:1308-1314 | and only such a triple does |
| `WinogradTransforms.DataTileByRows` | plaidml/op.py:1310-1311 | the two data transforms commute |
| `WinogradTransforms.KernelTileByRows` | plaidml/op.py:1308-1309 | so do the two kernel transforms |
| `WinogradTransforms.TileIsDirect` | plaidml/op.py:1308-1314 | the two-dimensional pipeline of one tile is the direct sum over the window |
| `WinogradTransforms.InverseOfTotal` | plaidml/op.py:1312-1314 | the inverse transform distributes over the sum of the input channels |
| `WinogradMatrices.SmallIsExact` | plaidml/op.py:1329-1333 | the (2, 3) matrices satisfy the identity |
| `WinogradMatrices.LargeIsExact` | plaidml/op.py:1343-1363 | so do the (4, 3) matrices with the fractions that A rounds |
| `WinogradMatrices.WrittenIsInexact` | plaidml/op.py:1343-1350 | the (4, 3) decimals as written do not |
| `WinogradConvolutions.UAt` | plaidml/op.py:1308-1309 | contractions U1 and U compute G g G^T |
| `WinogradConvolutions.VAt` | plaidml/op.py:1310-1311 | contractions V1 and V compute B^T d B of the padded window |
| `WinogradConvolutions.MAt` | plaidml/op.py:1312 | contraction M adds the pointwise products over the input channels |
| `WinogradConvolutions.ProgramAt` | plaidml/op.py:1313-1314 | contractions O1 and O place the inverse transform of each tile |
| `WinogradConvolutions.WinogradIsConvolution` | plaidml/op.py:1298-1316 | for every exact triple the seven contractions are the convolution: all sizes, channel counts and paddings, overhanging tiles included |
| `WinogradPlans.SamePlan` | plaidml/op.py:1318-1322 | without explicit pads both forms are planned with the same numbers |
| `WinogradPlans.WinogradReplacesDirect` | plaidml/op.py:1243-1252 | then the Winograd branch returns, element by element, what the direct branch would have |
| `WinogradPlans.ExplicitPadsAreIgnored` | plaidml/op.py:1243-1252 | with explicit pads the Winograd branch returns what the direct one would have, for all data and kernels, exactly when on both axes the pads repeat the automatic ones (or, where nothing is output, add up to them); never under the default padding mode |
| `WinogradPlans.ShiftedByPads` | plaidml/op.py:1318-1322 | for instance SAME_UPPER with pads 2 in front and 0 behind gives the same shape and other elements |
| `WinogradPlans.ChannelsFirstIsMisread` | plaidml/op.py:1243-1246 | a channels-first kernel that is taken for a 3x3 one gives an output of another shape |
| `WinogradPlans.MisreadExample` | plaidml/op.py:1243-1246 | for instance three 5x5 filters over three channels give five output channels instead of three |
| `Pooling.ExtendPads` | plaidml/op.py:82-100 | missing leading pads are zero, missing trailing pads repeat the leading ones |
| `Pooling.Plan` | plaidml/op.py:2080-2127 | the numbers of a pooling operation, or the first thing wrong with its arguments; element i of the pads is in front of axis i and element i + rank behind it |
| `Pooling.PoolCell` | plaidml/op.py:2161-2165 | a cell sums its window over the tensor extended by zero |
| `Pooling.PoolOfOne` | plaidml/op.py:2161-2165 | a single element is summed by exactly the outputs of its image and channel whose windows hold it |
| `Pooling.CountIs` | plaidml/op.py:2137-2149 | Count is the product over the axes of the taps within the input |
| `Pooling.CountAtLeastOne` | plaidml/op.py:2137-2149 | it is zero exactly when some axis' window lies wholly in the padding, and at least one otherwise |
| `Pooling.AutomaticPaddingCounts` | plaidml/op.py:2099-2149 | with SAME or VALID padding it is at least one everywhere |
| `Pooling.ExplicitPaddingCounts` | plaidml/op.py:2099-2149 | with explicit pads exactly when every axis' first and last window meet the input |
| `Pooling.AverageWithin` | plaidml/op.py:2137-2149 | the average lies between any bounds of the data |
| `Pooling.MaxPoolIsTheMaximum` | plaidml/op.py:2152-2165 | max pooling takes the largest element of the window that is not padding |
| `Concatenation.CheckTemplates` | plaidml/op.py:1108-1120 | whether the shapes agree off the axis, symbolic sizes left open |
| `Concatenation.ComputeOffsets` | plaidml/op.py:1122-1124 | the prefix sums of the sizes along the axis |
| `Concatenation.MakePlan` | plaidml/op.py:1100-1126 | every error of the constructor, and the axis and offsets otherwise |
| `Concatenation.LowerRankPasses` | plaidml/op.py:1108-1124 | a vector of 4 next to a 4 x 5 matrix passes the check along axis 1, which it does not have |
| `Concatenation.CopyAt` | plaidml/op.py:1154-1158 | each shifted copy writes its own range of the axis and zero elsewhere |
| `Concatenation.ConcatenatesTheInputs` | plaidml/op.py:1149-1161 | every output cell is one element of exactly one input, at the position less the offset |
| `Concatenation.EveryElementAppears` | plaidml/op.py:1149-1161 | and no element of any input is lost |
| `Concatenation.PlansFit` | plaidml/op.py:1115-1126 | shapes that pass the checks give such a plan |
| `Reshaping.Resolve` | plaidml/op.py:2277-2289 | the sizes with their copies resolved, each copied from the input's size at its own place, and the place to infer, or the first error: a missing size or a further -1 |
| `Reshaping.Cancel` | plaidml/op.py:2326-2341 | symbols cancel as often as they occur on both sides |
| `Reshaping.OutputDims` | plaidml/op.py:2276-2342 | the sizes of the result, with the quotient of what the cancellation leaves at the place to infer, or the first error |
| `Reshaping.NumberWhenSymbolsCancel` | plaidml/op.py:2326-2342 | the inferred size is a number exactly when the symbols of both sides are the same multiset |
| `Reshaping.InferredSizeKeepsElements` | plaidml/op.py:2290-2342 | for positive sizes the number of elements is kept exactly when the division is exact |
| `Reshaping.WhatIsEnforced` | plaidml/op.py:2284-2289 | which keys with several -1 are accepted: a -1 in front is forgotten |
| `ParameterOrders.ParametersAreTotal` | plaidml/plaidml.cc:1262-1279 | operator< is a strict weak order, and its equivalence is equality |
| `ParameterOrders.KeysAreTotal` | plaidml/plaidml.cc:1299-1306 | so are the orders of the two caches' keys |
| `LruCaches.LruCache.Find` | tile/base/lru_cache.h:28-37 | the stored value for an equal key, which becomes the most recently used; the others keep their order |
| `LruCaches.LruCache.Insert` | tile/base/lru_cache.h:40-49 | the new entry comes first and the least recently used ones beyond the bound are dropped |
| `Invokers.KeyDeterminesArguments` | plaidml/plaidml.cc:1281-1291 | a cache key holds all that the cached object is built from exactly when no tensor is constant |
| `Invokers.KeysIgnoreConstness` | plaidml/plaidml.cc:1239-1260 | in general exactly up to the constness of tensors |
| `Invokers.ArgumentsTellBindings` | plaidml/plaidml.cc:1318-1337 | what the function is applied to is named after its binding and has its shape and constness or its value |
| `Invokers.EqualArguments` | plaidml/plaidml.cc:1318-1337 | so it tells bindings apart that differ in more than their buffers |
| `Invokers.Invoker.SetInput` | plaidml/plaidml.cc:1362-1388 | the binding changes and both derived objects are dropped; an unsupported value changes nothing |
| `Invokers.Invoker.SetOutput` | plaidml/plaidml.cc:1423-1443 | likewise for outputs, which must be tensors |
| `Invokers.Invoker.BuildRunInfo` | plaidml/plaidml.cc:1311-1341 | the run information is what building from the current bindings gives |
| `Invokers.Invoker.AllocOutputShape` | plaidml/plaidml.cc:1390-1421 | the shape is what applying the function to the current inputs gives |
| `Invokers.Invoker.Save` | plaidml/plaidml.cc:1445-1509 | the program saved is the current one, under the file's name |
| `Invokers.Invoker.Schedule` | plaidml/plaidml.cc:1521-1550 | the program run is the current one |
| `Invokers.PerformAll` | plaidml/plaidml.cc:1293-1550 | over any sequence of calls the caching invoker answers as one that recomputes everything |
| `Transfer.JsonWrap` | base/util/json_transfer.h:22-136 | the JSON value of every typed value, containers and fields in loops |
| `Transfer.Forms` | base/util/json_transfer.h:22-136 | the JSON form of every kind of value: numbers by signedness, containers as arrays and objects of the same elements, objects as their fields and their version |
| `Transfer.JsonUnwrap` | base/util/json_transfer.h:156-298 | reading back, with every type mismatch an error |
| `Transfer.UnwrapObject` | base/util/transfer_object.h:220-244 | the flags decide about missing and null fields |
| `Transfer.UnwrapMap` | base/util/json_transfer.h:275-292 | every member, or an error if one cannot be read |
| `Transfer.ContainersRead` | base/util/json_transfer.h:233-292 | a container is read exactly when all it holds can be read; a vector or a map then holds what was read, each in its place, and a set nothing but what was read, and of all of it either it or an equivalent |
| `Transfer.AbsentField` | base/util/transfer_object.h:220-244 | a missing field fails the read if it is strict and a null one unless null is allowed; otherwise it has its default or, without one, what it had before |
| `Transfer.NumbersRead` | base/util/json_transfer.h:156-172 | which JSON numbers a signed, unsigned or real type takes, and that a number of its own width is read as it is |
| `Transfer.WrapNull` | base/util/json_transfer.h:74-130 | empty containers and objects without fields and version become null, and nothing else does |
| `Transfer.NarrowedFits` | base/util/transfer_object.h:70-90 | narrowing to the native width is the identity on values of that width |
| `Transfer.NarrowedWraps` | base/util/transfer_object.h:70-90 | and keeps any other value modulo the range of the native type |
| `Transfer.ReadValuesAreTyped` | base/util/json_transfer.h:156-298 | whatever JSON is read, what is read has the type: numbers in range, sets in order, all fields present |
| `Transfer.RoundTrip` | base/util/json_transfer.h:74-298 | every value whose holes are in fields that allow and restore them comes back |
| `Transfer.OnlySurvivorsComeBack` | base/util/json_transfer.h:74-298 | and no other value of any type does |
| `Transfer.Settles` | base/util/json_transfer.h:156-298 | writing and reading a value again and again comes to rest after at most one change for every object around a field |
| `Transfer.FullValuesSurvive` | base/util/json_transfer.h:74-130 | values without empty containers and empty objects are among them |
| `Transfer.EmptyContainerInField` | base/util/transfer_object.h:220-244 | an empty container in a field comes back exactly if null is allowed there and stands for an empty container |

## Left out

- Device calls, file formats, logging, settings, environment variables and ctypes bindings are not part of this model.
- The TILE compiler: what a function and its arguments compile to is a parameter of `Invokers`, and TILE's own checks of
  an emitted program, such as the unification of dimension names, are not modelled.
- Floating point: tensors hold reals, so rounding and the float32 form of the Winograd matrices are not captured, and
  the float division behind the declared size of a slice is exact.
- Overflow of 64-bit sizes, strides and offsets.
- Symbolic sizes are modelled in `Reshape` and in the shape check of `Concatenate` only; convolution, pooling and slicing
  work on numbers, and a symbolic size along the concatenation axis is excluded.
- `is_open` and `CheckIsOpen` as calls: they read one flag, and what its value tells is `ClosedForGood`.
- Callbacks that destroy their own rundown, rundowns moved after entering a gate or entering two, and `ran_destructor`
  at process exit.
- The buffer and activity references that a map call keeps alive, and the null-buffer and out-of-memory returns before
  its completion exists.
- Operation objects of `compose` other than through their inputs, side effects and outputs; the graph is a map from
  identities to operations.
- The `kernel_shape` override of `Convolution`, and the grouped format with a three-part channel shape, which its rank
  check refuses.
- `assert_winograd_valid` and `assert_group_count` in the emitted text, which name no TILE semantics of their own.
- Slices of a view in Python's `__getitem__` and `__setitem__`, and the reinterpretation of float16 values.
- Pooling a tensor without batch and channel dimensions, for which the rank is negative.
- `unordered_map` and non-string maps in JSON transfer, whose pair type has no JSON form; types that contain themselves;
  custom `transfer` bodies; numbers that the JSON library would convert from reals to integers; the text form.
- MakePlan: excludes symbolic sizes along the axis, which the constructor would add up as values and print as text.
- KeysAreTotal: float constants are reals, so NaN is excluded; with it the order would not be total.
- SetInput, SetOutput, PerformAll: constant tensors are excluded, as the tensor constructor of the C API makes none;
  what goes wrong with them is `KeyDeterminesArguments` and `KeysIgnoreConstness`.
- Save: the TILE file format, for which nothing is built, is left out.
- Schedule: stops at the program that is run; buffer binding, program creation and the asynchronous result are left out.
- PendingCallbackMap, event logs, factories, performance counters and error visitors would only add easy members.

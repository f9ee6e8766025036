# drperf, modelled and proved

drperf counts instructions per marked region of a program. A client inside the program keeps a stack of open regions on
every thread and points each thread at the counter array of the region it is in; an analysis reads the dumped counts back,
derives cost formulas in the declared states, and learns exact relations between states. This project models those parts
in Dafny and proves what they are for.

| part | files | what is modelled |
|---|---|---|
| Attribution | `Attribution`, `AttributionInvariant`, `Accounting`, `Reports`, `StatsMeaning`, `RunTallies`, `Client` | The marker protocol as a state machine over block executions, begin and end markers, thread starts and exits; the classes `Client.ThreadRec` and `Client.Profiler` are the client's own callbacks and loops, each proved to take exactly the machine's step. |
| Trace nesting | `TraceNesting`, `NestedMap`, `TraceLog`, `TraceValues`, `TraceBudget` | Sequence-number intervals against dynamic nesting, the analysis that reads nesting back from them, and the trace against the run: which records there are, what they say, and which are dropped. |
| Keys | `KeyEncoding`, `Fnv`, `KeyTable`, `KeyLaws`, `KeyCache`, `RequestRuns`, `BeginMarker` | `get_key`: a 512-slot array, a per-thread table and a shared table, against one map from what a marker declares to its key; the counting machine together with that map, and begin markers that look their key up. |
| Derivation | `Vectors`, `GaussJordan`, `LeastSquares`, `Dependence`, `Separation`, `BlockRelation`, `Regimes`, `KeptBlocks`, `FoldingGap`, `TinySlope`, `DeriveRegime`, `Derivation`, `SplitLaws`, `PredictionLaws`, `PerState`, `RealMaps`, `Pipeline` | Elimination, least squares, dependent states, the relation test per block, accumulation into a formula, the regime split and prediction, over exact reals; and the way from the client's keys to the regimes. |
| Relations | `Features`, `FeatureLaws`, `FeatureColumns`, `RelationSearch`, `RelationLaws` | The sweep that computes features, and the search over combinations, over integers. |
| Marker commenting | `Whitespace`, `MarkerLines`, `MarkerTree`, `MarkersOff`, `MarkerWalk`, `MarkerReach`, `MarkerMeaning`, `MarkersOn`, `MarkerRoundTrip`, `MarkerCounts`, `MarkerRestore`, `MarkerCheck`, `MarkerExamples`, `MarkerMissed` | `turn_off`, `turn_on` and the round-trip check over lines, against a tree of regions walked breadth first. |
| Block dump | `Decimal`, `BlockDump`, `BlockTokens`, `BlockLoad`, `BlockLaws` | The printer, the tokenizer and the loader, with JSON string escaping (section 7 of RFC 8259). |
| Example systems | `Handshake`, `Playground` | A condition-variable handshake as an interleaving of atomic steps, and a bursty queue. |

`Options`, `Sums` and `Dictionaries` hold shared definitions.

## Where code and documentation differ

The model follows the code in each case. "The specification" is the repository's own description of what drperf computes;
its guarantee P1 is exact recovery, P2 the error bound, P3 that irregular cost stays out, R1 the exactness of relations.

- The specification's P2 bounds the formula's error by the tolerances of the kept blocks alone. The code also folds small slopes
  into the constant, which can move the formula by one more tolerance per state. `FoldingGap.StatedBoundFails` is a region
  with three points and one constant block whose formula is 80 off where 64 is allowed. `Regimes.FormulaErrorBound` is the
  bound the code meets for all inputs. A block that scales nowhere is within its tolerance at a point if and only if its
  count there is that close to its mean (`BlockRelation.ConstantWithin`); one that scales, if and only if its residual and
  what folding moved are together that small (`BlockRelation.ScalingWithin`). The formula's error is the sum of those of
  the blocks, so P2 as stated holds at a point exactly when that sum is at most the tolerances (`Regimes.StatedBoundIff`),
  holds whenever each block meets its own condition (`Regimes.StatedBoundIf`), and for one block exactly then
  (`Regimes.OneBlockIff`).
- The specification's P1 promises the exact formula for exactly affine counts. The code keeps a block's plane if and only if its
  intercept is not far below zero and no slope is at once at most 1e-9 and too small to matter over the observed range
  (`BlockRelation.ExactRecovery`). `TinySlope.ExactPlaneIsLost` is a block over three points whose slope is dropped.
- The specification says that learning reports every exact relation of up to three features. The search stops at the smallest
  number of features that gives any, and drops constant and repeated columns first. `RelationLaws.ReportedIff` says exactly
  which relations are reported; `RelationLaws.RepeatedColumnsHideIt` is a relation, `y = 1*x + 2*x'` over two equal
  columns, for which nothing is reported.
- The header of `bin/perfmark-regions` promises that commenting out and back in reproduces the file byte for byte. It does
  for every source file in which no region that may be turned off has another such region as its first statement, or one
  with a header of several lines anywhere inside, whatever the walk refuses or misses (`MarkerCheck.RestoredIfSource`); and
  only for those, as long as nothing is missed (`MarkerCheck.RestoredIffClear`, `MarkerCheck.Check`).
  `MarkerExamples.NestedChanges` is a file with two regions that does not come back.
- The same header says that only two kinds of regions are left, and reported. The walk remembers a refused region by line and
  column, and these go stale. A refused region that rewrites move down is refused, and reported, again at every line it
  comes to. And `MarkerMissed.RegionIsMissed` is a file in which a region that may be turned off moves onto the line and
  column another was refused under, and is left live. `MarkerReach.MissedIsNear` says where that can happen: only with a
  refused region after it in the source, no more lines away than there are regions before it that may be turned off, and at
  a column both can come to; a source without such a pair has nothing missed (`MarkerReach.NothingMissedIf`). The condition
  is sufficient: whether a pair really meets depends on the whole order of the walk. A body that is not indented by four is
  a third reason to refuse, which the header leaves out.

## Model

| member | source | states |
|---|---|---|
| Client.Profiler.SlotsFor | client/drperf.c:270-303 | A key's array for a thread is created once, within the counter budget; after that the dummy, counted as denied |
| Client.Profiler.SteerFollower | client/drperf.c:335-341 | The leader replaces only a pointer it installed itself |
| Client.Profiler.UpdateShared | client/drperf.c:472-505 | The callback takes the machine's leader step, with one thread and with several |
| Client.Profiler.CloseFrame | client/drperf.c:549-576 | Statistics, trace record and the parent's children count change as the machine says, and nothing else does |
| Client.Profiler.Begin | client/drperf.c:589-609 | Given the key: too deep begins are counted and ignored; any other pushes a frame and repoints the thread |
| BeginMarker.BeginCommon | client/drperf.c:578-609 | A begin marker looks its key up, with the outermost open region as root, through the thread's caches, and pushes the frame under it: one step of the counting machine together with the plain map of keys |
| Client.Profiler.End | client/drperf.c:664-698 | Frames above the named region are closed implicitly with the same end number; an end of no open region is only counted |
| Client.Profiler.ThreadInit | client/drperf.c:782-802 | A new thread counts into its array of the leader's region |
| Client.Profiler.ThreadExit | client/drperf.c:804-819 | All frames are closed implicitly, and a leader that exits is deposed |
| Client.Profiler.ExecBlock | client/drperf.c:881-916 | An executed block adds its instructions to the thread's total and to one counter of its current array |
| Client.Profiler.MergeStats | client/drperf.c:1109-1134 | The loop over threads computes the merged statistics |
| AttributionInvariant.AttributionInvariant | client/drperf.c:323-341 | In every reachable state a live thread counts into its top frame's array, else into its own array of the leader's innermost region; the shared key is that region or nothing; counter arrays fill at most 96 GiB, one is denied only once no further one fits, and a pointer is the dummy only if there is no region or an array was denied |
| AttributionInvariant.StepKeeps | client/drperf.c:578-609 | Every step keeps the invariant, and only ever adds arrays |
| AttributionInvariant.UpdateSharedManyThreads | client/drperf.c:488-504 | Electing, deposing and steering repair every follower's pointer |
| AttributionInvariant.UpdateSharedOneThread | client/drperf.c:479-487 | The lock-free path for one thread keeps the invariant too |
| Accounting.SelfIsInnermost | client/drperf.c:549-576 | Over every run, what a thread ran while a key was innermost on its own stack is that key's `self_sum` plus the pending self of its open frames |
| StatsMeaning.StatsAreOfTheRun | client/drperf.c:549-576 | Over every run: a key's `incl_sum`, with what its open frames have run so far, is what the thread ran counted once for each open frame of the key; its count and open frames are the begins that pushed; its implicit ends are the frames closed without an end of their own |
| Accounting.ArraysAreExact | client/drperf.c:897-906 | Over every run of at most MAX_THREADS threads, a key's array for a thread holds, block by block, what that thread ran while its instructions belonged to the key; a missing array has nothing to hold unless an allocation was denied |
| Accounting.MarkersCountNothing | client/drperf.c:664-698 | Markers, thread starts and exits move no instruction between keys |
| RunTallies.TalliesAreOfTheRun | client/drperf.c:587-602 | The begins counted as too deep, the ends counted as unmatched and the sequence numbers drawn are those of the run |
| RunTallies.UntracedRunsLeaveNone | client/drperf.c:509-525 | Without a trace limit nothing is recorded, dropped or numbered |
| RunTallies.LeadIs | client/drperf.c:472-505 | Over every run the lead goes to the first thread that opens a region while nobody leads, and is lost only when the leader exits, or closes its last region while no second thread ever was |
| RequestRuns.CallsKeep | client/drperf.c:587-594 | In every reachable state each open frame counts under the key its request has, and always will have |
| RequestRuns.EveryFrameHasItsGroup | client/drperf.c:420-462 | The request of an open frame has a key of its own or belongs to its region's bucket, never both |
| RequestRuns.ArraysByRequest | client/drperf.c:578-609 | Over every run of markers and blocks, the counters of a request's key hold, block by block, what ran while that very region, states and root were innermost; a bucket's, what ran for the requests of its region without a key of their own |
| Reports.OtherThreadsAreFollowers | client/drperf.c:1220-1223 | At exit, with nothing denied, a key's counters hold its `self_sum` plus exactly what idle threads ran while the leader was in it |
| Reports.SelfSlotsAreSelfSum | client/drperf.c:1218-1223 | For one thread the two measurements are the same number |
| Reports.InstructionsAreConserved | client/drperf.c:897-906 | In every reachable state the threads' totals sum to all counters plus the dummy |
| Reports.DummyIsIdle | client/drperf.c:270-275 | With nothing denied, the dummy holds exactly what belonged to no region |
| Reports.ChildrenFitTheirParent | client/drperf.c:553-575 | An open frame's children never outrun its inclusive count, so no self count is negative |
| Reports.StatsSummarizeTrace | client/drperf.c:549-576 | A thread's statistics of a key are the summary of its trace records of that key, when tracing dropped nothing |
| Reports.MergedStatsSummarizeTheTrace | client/drperf.c:1109-1134 | The merged statistics are the summary of all threads' trace records |
| Reports.SummaryMeaning | client/drperf.c:1109-1134 | A summary counts the records and the implicit ones among them, sums their inclusive and self counts, and its minima and maxima bound them all and are attained |
| TraceValues.MergedMeaning | client/drperf.c:1109-1134 | With no record dropped, what is reported of a key is that of all threads' records, and all zeros if there are none |
| TraceValues.RecordsSayTheRun | client/drperf.c:509-576 | A record's clock is what the thread had run at its frame's begin, its inclusive count what ran while the frame was open, its self count what ran while it was innermost; it is implicit exactly if no end marker was the frame's own |
| TraceBudget.DroppedBeyondTheLimit | client/drperf.c:509-545 | As many records are asked for as frames closed, and as many kept as the limit allows |
| TraceNesting.IntervalsAreNesting | client/drperf.c:664-698 | Over every run, one trace record's interval lies inside another's on the same thread if and only if its frame was pushed while the other was open, shared end numbers included |
| TraceLog.TraceIsExact | client/drperf.c:509-576 | However frames are weighed by begin number and key: with no record dropped, a thread's open frames and trace records weigh what its begin markers pushed |
| TraceLog.OneRecordForEachPush | client/drperf.c:509-576 | With no record dropped and nothing open, the records' begin numbers and keys are, with multiplicity, those of the begin markers that pushed |
| NestedMap.NestedMap | lib/derive.py:313-333 | One entry for each record of the target region, as often as it occurs, by group as first seen and by begin number; it holds exactly the marked regions and states whose records lie inside that one, as often as they do |
| TraceLog.NestedMapIsWhatRan | lib/derive.py:313-333 | With no record dropped it is, with multiplicity, what the run's begin markers pushed on the thread while the trigger's frame was open |
| NestedMap.SortKeepsBag | lib/derive.py:321 | What ran inside a trigger does not depend on the order of the records |
| KeyCache.ThreadCache.GetKey | client/drperf.c:367-466 | Through array, thread table and shared table, `get_key` answers what the plain map answers, and leaves all three levels right; the slot of its hash then holds this request's key, and unless it did before so does the thread's table |
| KeyCache.FastHit | client/drperf.c:345-358 | A slot that hashes alike and matches holds this very request's key, also after slots were overwritten |
| KeyCache.CachesSurvive | client/drperf.c:415-419 | Keys made by other threads leave this thread's caches right |
| KeyCache.FiledIffKeyed | client/drperf.c:420-433 | A text is in the shared table exactly if the request has a key |
| KeyCache.ComputeHash | client/drperf.c:388-397 | The loops compute the content hash |
| KeyCache.Registry.RegionKeyBudget | client/drperf.c:196-214 | The linear search charges the region's row, as the specification's budget does |
| KeyCache.Registry.LookupOrCreate | client/drperf.c:420-462 | A new key within the budgets, the region's bucket beyond them |
| KeyEncoding.EncodeInjective | client/drperf.c:404-414 | Different requests are filed under different texts |
| KeyEncoding.NoCollisionWithOther | client/drperf.c:424-428 | No request is filed under a bucket's text |
| KeyEncoding.UnnamedHashInjective | client/drperf.c:389-397 | Requests with one unnamed state that hash alike asked for the same value, so the comparison may skip it |
| Fnv.MixInjective | client/drperf.c:389-397 | One hashing step loses nothing of what it mixes in |
| Fnv.HashTellsOneApart | client/drperf.c:388-397 | Two texts that differ in one character hash differently |
| Fnv.XorIsBitwise | client/drperf.c:389-397 | The mixing of bits is exclusive or, digit by digit |
| KeyTable.BudgetsKept | client/drperf.c:196-214 | In every reachable table each tracked region has at most 128 keys of its own, at most 64 regions are tracked, and key numbers are distinct |
| KeyLaws.OwnKeyIff | client/drperf.c:420-462 | In every reachable table a request without a key gets one of its own if and only if one more counter array fits into 96 GiB and its region has fewer than 128 keyed requests or is not among the first 64 regions that got a key; the key is the next number and what was declared, and any other request gets its region's bucket |
| KeyLaws.RegionsAreRows | client/drperf.c:196-214 | The rows are those of the first 64 regions that got a key, in that order |
| KeyLaws.KeysAreNumbered | client/drperf.c:446-462 | In every reachable table keys and buckets are numbered from 0, without gap or repetition |
| KeyTable.KeysAreSticky | client/drperf.c:421-466 | A combination keeps its key, or its place in the bucket, whatever is asked and allocated later |
| KeyTable.KeysSeparate | client/drperf.c:421-462 | Two requests share a key of their own only if they are the same |
| GaussJordan.Solve | lib/derive.py:174-196 | The in-place elimination computes the solution and dependent columns of the specification |
| GaussJordan.EliminateSolves | lib/derive.py:189-192 | Clearing columns keeps the solution set |
| GaussJordan.EliminateReduces | lib/derive.py:181-192 | Every pivot column ends with its pivot row as only non-zero entry; each column is pivotal or dependent |
| GaussJordan.SolutionIsUnique | lib/derive.py:174-196 | With no dependent column the answer is the one solution of the system |
| GaussJordan.DependentAreZero | lib/derive.py:193-195 | Dependent columns get 0 |
| GaussJordan.DependenceIgnoresCounts | lib/derive.py:182-186 | Which columns are dependent does not depend on the right-hand side |
| LeastSquares.FitPlane | lib/derive.py:199-218 | The fit computed by elimination on scaled variables is the specified one |
| LeastSquares.ResidualsSumToZero | lib/derive.py:207-216 | The unscaled plane passes through the centroid, dependent states or not |
| LeastSquares.ResidualsOrthogonal | lib/derive.py:212-215 | With no dependent state the residuals are orthogonal to every state |
| LeastSquares.FitIsOptimal | lib/derive.py:199-218 | With no dependent state no plane whatever has a smaller squared error |
| Dependence.CollinearIff | lib/derive.py:181-186 | The elimination has no pivot at all left for a state if and only if, over the points, it is an affine combination of earlier states that were separated |
| Dependence.CollinearIsDependent | lib/derive.py:184-186 | Such a state is reported as dependent |
| Dependence.DependentFitIsOptimal | lib/derive.py:199-218 | If every dependent state is such a combination, no plane has a smaller squared error, and the residuals are orthogonal to every state |
| Separation.StateIsDependentIff | lib/derive.py:174-196 | A state is reported as dependent if and only if what is left of it, after the combination of earlier separated states the elimination takes off, has with every scaled state an inner product of at most 1e-9 times 1 or the largest between two |
| Separation.OneStateIff | lib/derive.py:174-218 | A single state is reported as dependent if and only if it is the same at every point |
| LeastSquares.DependenceIsOfThePoints | lib/derive.py:211-214 | The dependent states are decided by the points, not the counts |
| LeastSquares.ExactPlaneRecovered | lib/derive.py:199-218 | Counts on a plane give back that plane with deviation 0, if no state is dependent |
| BlockRelation.KeptIsFolded | lib/derive.py:251-267 | A kept block, affine or constant, adds the fitted plane with its other slopes held at their mean |
| BlockRelation.KeptConserves | lib/derive.py:253-267 | Over the points, what a kept block adds sums to its counts |
| BlockRelation.KeptError | lib/derive.py:250-267 | A kept block's error is the fit's residual plus what folding moved |
| BlockRelation.KeptErrorBound | lib/derive.py:243-267 | It is at most the tolerance there plus one tolerance of the largest count per state |
| BlockRelation.ConstantWithin | lib/derive.py:263-267 | A kept block that scales nowhere is within its tolerance at a point if and only if its count is that close to its mean |
| BlockRelation.ScalingWithin | lib/derive.py:252-262 | One that scales is, if and only if residual and folding together are that small |
| BlockRelation.UnfoldedErrorBound | lib/derive.py:243-267 | It is at most the tolerance there if no non-zero slope was folded |
| KeptBlocks.KeptIff | lib/derive.py:243-249 | A block is kept if and only if every count is within 64, or within a twentieth of itself, of the fitted plane, and the intercept is no further below zero than 64 or a twentieth of the largest count |
| KeptBlocks.SlopeIff | lib/derive.py:251-262 | A kept block's slope is the fitted one if between some two points it moves the count by more than 64 and a twentieth of every count, or is over 1e-9 with the plane exact to 1e-9; it is 0 otherwise |
| TinySlope.ExactPlaneIsLost | lib/derive.py:251-267 | Three points with counts on a plane whose slope is dropped |
| BlockRelation.ExactRecovery | lib/derive.py:240-267 | An exact plane over separable states is kept as it is if and only if its intercept is at least minus the tolerance and no non-zero slope is both tiny and idle |
| Regimes.FormulaMeaning | lib/derive.py:158-159 | The formula at any state is the sum of the planes of the kept blocks |
| Regimes.TablesMeaning | lib/derive.py:236-272 | The irregular and waiting tables hold exactly the irregular and runtime blocks' counts |
| KeptBlocks.TablesIff | lib/derive.py:236-272 | At each observed point the irregular table holds the counts of exactly the blocks outside the runtimes that fail that test, the waiting table the runtimes' counts; the formula sums the planes of those that pass it |
| KeptBlocks.NumbersAre | lib/derive.py:253-269 | The numbers of irregular, scaling and constant blocks are those of the blocks the test says that of |
| KeptBlocks.DependentAre | lib/derive.py:240-241 | A state is reported dependent if and only if it is so in the fit of some block outside the runtimes |
| Regimes.FormulaConserves | lib/derive.py:253-267 | Over the points the formula sums to the kept blocks' counts |
| Regimes.CostIsConserved | lib/derive.py:221-273 | Formula, irregular part and waiting sum to all counts over all points, for any blocks, dependent states included |
| Regimes.FormulaErrorBound | lib/derive.py:243-267 | P2 as coded: at an observed point the formula is off the kept counts by at most the sum over kept blocks of one tolerance there and one of the largest count per state |
| Regimes.StatedBoundIff | lib/derive.py:243-267 | The formula's error at a point is the sum of the kept blocks' own, so P2 as stated holds there if and only if that sum is within the tolerances |
| Regimes.StatedBoundIf | lib/derive.py:243-267 | P2 as stated holds at a point where every kept block meets its own condition |
| Regimes.OneBlockIff | lib/derive.py:243-267 | For one kept block P2 as stated holds at a point if and only if the block is within its tolerance; if it scales nowhere, if and only if its count is that close to its mean |
| Regimes.UnfoldedFormulaErrorBound | lib/derive.py:243-267 | Where nothing was folded every block meets its condition, and P2 as stated holds |
| FoldingGap.StatedBoundFails | lib/derive.py:252-267 | A three-point region where the bound stated as P2 is exceeded |
| Regimes.IrregularStaysOut | lib/derive.py:268-272 | P3: the formula and its breakdown are unchanged when every irregular and runtime block is left out |
| Regimes.BreakdownAddsUp | lib/derive.py:256-272 | Charged to functions, slopes sum to the formula's slopes, constants to its constant, and means to the mean irregular cost |
| KeptBlocks.ChargedIsItsOwn | lib/derive.py:256-272 | What is charged to a function is what the regime over that function's blocks alone says: slopes, constant and mean irregular cost |
| Regimes.ExactCountsAreRecovered | lib/derive.py:221-273 | P1: blocks on exact planes that the test keeps give the exact summed slopes and intercept, nothing irregular, nothing dependent |
| Regimes.IrrShareMeaning | lib/derive.py:164-166 | The irregular share is the irregular counts' part of all counts that are not waiting |
| DeriveRegime.Regime.AddWaiting | lib/derive.py:236-239 | Runtime counts go to the waiting table, point by point |
| DeriveRegime.Regime.AddRegular | lib/derive.py:250-267 | Slopes, constant and their charge to the function accumulate as the block's part says |
| DeriveRegime.Regime.AddIrregular | lib/derive.py:268-272 | Irregular counts go to the table, their mean to the function |
| DeriveRegime.Regime.Place | lib/derive.py:234-272 | One block's effect on a regime |
| DeriveRegime.Derive | lib/derive.py:221-273 | Nothing from fewer than max(3, k+2) points, else the totals over every block that ran at one of them |
| DeriveRegime.RegimeConservesCost | lib/derive.py:221-273 | Formula, irregular part and waiting sum to every dictionary of counts given |
| Derivation.PartitionCovers | lib/derive.py:276-298 | One regime over all points, or two of at least three that together are the points in order |
| SplitLaws.FractionsAre | lib/derive.py:168-171 | A point's vote is the irregular blocks' counts there over the kept planes' value plus those counts, 0 where that is 0 |
| SplitLaws.SplitIsWorthIt | lib/derive.py:287-298 | Nothing from fewer than three points, or fewer than two more than states; else two regimes if and only if a split is allowed and some cut with three points on either side lowers the mean irregular fraction by more than 0.1; the cut made does, is better than every earlier one, and none is better by more than 0.1 |
| SplitLaws.TwoRegimesExplainAll | lib/derive.py:287-298 | Where one regime explains nothing and some such cut leaves nothing irregular, there are two |
| Derivation.Derive | lib/derive.py:276-298 | The regimes built are those of the partition, with their totals |
| Derivation.Choose | lib/derive.py:290-298 | The loop over cuts keeps the best so far |
| Derivation.ObservedIsCovered | lib/derive.py:446-458 | An observed point is covered by the regime it belongs to |
| Derivation.GapIsBetween | lib/derive.py:446-458 | Exactly the states strictly between the two regimes are covered by neither |
| Derivation.Evaluate | lib/derive.py:446-463 | With the regimes of a list of sorted points: nothing exactly in the gap or without regimes, and at an observed point the formula of the regime that holds it, off the kept counts there by at most what is allowed |
| Derivation.PredictRegime | lib/derive.py:472-481 | Formula total, measured total and triggers of one regime |
| Derivation.Predict | lib/derive.py:466-483 | Regime triggers plus gap are all triggers of the formula's arity |
| PredictionLaws.FormulaCostIs | lib/derive.py:472-479 | A regime's formula total is its slopes over the sum of the covered states, and its constant once for each covered trigger |
| PredictionLaws.WorkIs | lib/derive.py:480 | Measured at a state is everything counted there outside the threading runtimes |
| PredictionLaws.MeasuredCostsAre | lib/derive.py:472-481 | With no state in the gap the regimes' measured totals are together all the work of the run |
| PredictionLaws.OwnRunIsPredicted | lib/derive.py:466-483 | Predicting the very run a single regime came from, each state triggered equally often, misses exactly the irregular counts |
| PerState.PerState | lib/derive.py:106-129 | Per point and slot the table holds the placed keys' sums; placed and dropped calls are all calls; no placed count is lost |
| PerState.PerTrigger | lib/derive.py:132-137 | The divided counts times the triggers are the counts |
| PerState.GatheredIsTriggered | lib/derive.py:113-128 | Every gathered point has a trigger, so the division is safe |
| PerState.NamesAre | lib/derive.py:113-117 | The names of the states are those of the first key of the region that was called, has states and is no bucket |
| Pipeline.Analyse | lib/derive.py:353-368 | From the client's keys, printed, loaded, gathered by state and divided by the calls, to the regimes: they are those of the region's sorted states, and the counts per call they are built from, times the calls, are what the client counted |
| Features.FeatureRows | lib/runner.py:171-204 | For any records, each row has the counts, sums and latest values over the records listed before, and the sums over all that ended before the largest begin number so far |
| Features.SweepIsRows | lib/runner.py:171-204 | For one run's records in begin order those are the counts, sums and latest values over the triggers begun, or ended, before the row's own |
| Features.CatchUp | lib/runner.py:184-190 | The pointer over the records by end number passes exactly those ended before the trigger |
| Features.SortKeepsCumEnd | lib/runner.py:176 | Sorting by end number changes no sum over what ended before |
| Features.LatestAt | lib/runner.py:199-203 | The latest value is that of the record with the largest begin number that has one |
| FeatureLaws.RowsAre | lib/runner.py:191-204 | One row for each of the target's records with an integer in the field, in order; in it each column's count, sum or latest value over the records themselves |
| FeatureLaws.ColumnsAre | lib/runner.py:178-197 | For each region its count, then three columns for each field |
| FeatureColumns.DedupeColumns | lib/runner.py:207-220 | The kept columns, and each dropped repetition, and nothing else, listed under the column it repeats |
| FeatureColumns.KeepMeaning | lib/runner.py:207-220 | Kept are, in order, the columns that vary and are the first with their contents |
| FeatureColumns.RepIsKept | lib/runner.py:213-219 | A column that varies has the contents of exactly one kept column |
| FeatureColumns.KeptIff | lib/runner.py:207-220 | A column is kept if and only if two triggers have different values in it and every earlier column differs from it somewhere |
| FeatureColumns.RepeatsIff | lib/runner.py:207-220 | It is listed under another if and only if it varies and that is the first column with the same values throughout |
| RelationSearch.CombinationsMeaning | lib/runner.py:229 | Enumerated are exactly the increasing choices of the kept columns |
| RelationSearch.ProductsMeaning | lib/runner.py:230 | Enumerated are exactly the coefficient tuples |
| RelationSearch.Check | lib/runner.py:231-243 | A combination passes if and only if some offset makes it hold at every trigger, and that offset is returned |
| RelationSearch.SearchSize | lib/runner.py:229-243 | All relations of one size over kept columns, and only those |
| RelationSearch.ExactRelations | lib/runner.py:223-245 | All relations of the smallest size that has any, up to three, by columns first and then by coefficients 1, -1, 2, -2 |
| RelationLaws.ReportedIff | lib/runner.py:225-245 | A relation is reported as it stands if and only if its columns are kept and no relation of fewer features holds |
| RelationLaws.EveryRelationIsFound | lib/runner.py:223-245 | Any relation over at most three columns that vary and differ forces a find of no larger size, and its canonical form is reported if and only if no smaller relation holds |
| RelationLaws.RepeatedColumnsHideIt | lib/runner.py:207-245 | A relation over two equal columns for which nothing is reported |
| RelationLaws.ListedOnce | lib/runner.py:228-243 | No relation is found twice |
| MarkersOff.DedentBody | bin/perfmark-regions:131-147 | The body one level out, if and only if all its lines are blank or indented enough |
| MarkersOff.Rewrite | bin/perfmark-regions:97-149 | A region is rewritten if and only if it stands alone in its `with`, holds no multi-line string and is indented by four; the lines are then those of the tree with it commented out |
| MarkersOff.TurnOffKeeps | bin/perfmark-regions:123-149 | Commenting a region out keeps the layout and what putting everything back gives |
| MarkersOff.Walk | bin/perfmark-regions:82-95 | The first region, breadth first, whose line and column are not among the refusals |
| MarkersOff.TurnOff | bin/perfmark-regions:75-150 | The loop ends where the walk of the tree does, with its refusals; the lines are that tree's text, and putting all back gives the tree one started with |
| MarkerWalk.RefusalAfter | bin/perfmark-regions:91-147 | Commenting one region out changes nothing about whether, and why, another is refused, though it may move and dedent it |
| MarkerWalk.WhatStays | bin/perfmark-regions:82-98 | A region left live was refused in the source for the same reason as now, or has the line and column another was refused under |
| MarkerReach.Moves | bin/perfmark-regions:114-149 | Commenting a region out moves another one line down if it ends before it, one level out if it encloses it, and nothing else |
| MarkerReach.MissedIsNear | bin/perfmark-regions:82-98 | A region left live that may be turned off has, in the source, a refused region after it, within as many lines as there are regions before it that may be turned off, at a column both can come to |
| MarkerReach.NothingMissedIf | bin/perfmark-regions:82-98 | If no refused region of the source is within such reach of one that may be turned off, exactly the refused ones stay |
| MarkerWalk.AllTurnedOff | bin/perfmark-regions:75-150 | If every region may be turned off, every one is, and nothing is reported |
| MarkerMissed.RegionIsMissed | bin/perfmark-regions:88-92 | A file of five regions whose walk ends with one live that may be turned off |
| MarkersOff.LiveIsTarget | bin/perfmark-regions:82-95 | Every live region is among those looked at |
| MarkersOff.TargetsDepth | bin/perfmark-regions:82-95 | The depth the walk goes by is the number of statements around a region in the file as it stands, whatever was commented out around it |
| MarkerMeaning.RewriteMeans | bin/perfmark-regions:123-149 | Marks aside, a rewrite gives the file of the tree with that region replaced by its body |
| MarkerMeaning.CodeIsSplice | bin/perfmark-regions:75-150 | Marks aside, the file is that of the tree with all commented regions replaced by their bodies |
| MarkerMeaning.SpliceLaid | bin/perfmark-regions:75-150 | What is left is again a well laid out file |
| MarkerTree.TextDedents | bin/perfmark-regions:131-145 | Dedenting a subtree dedents every line of its text, nested marks included, and keeps the layout |
| MarkerTree.IndentDedentDoc | bin/perfmark-regions:181 | Indenting undoes dedenting |
| MarkersOn.TurnOnLines | bin/perfmark-regions:153-184 | The loops take the specified steps until no commented line is left, and count them |
| MarkersOn.StepLightens | bin/perfmark-regions:156-184 | Each step shortens the commented text, for any file, so the loop ends |
| MarkerRoundTrip.GoodStep | bin/perfmark-regions:156-184 | If the first commented region can be told from what it holds, a step puts exactly it back |
| MarkerRoundTrip.BadEnd | bin/perfmark-regions:171-183 | With header lines to spare in the body, the scan misses the end mark and runs to the end of the file |
| MarkerCounts.EndsAreLeft | bin/perfmark-regions:156-184 | End marks beyond the number of runs of commented lines are never removed |
| MarkerRestore.AllOrLeftover | bin/perfmark-regions:153-184 | Either all commented regions are put back, or an end mark is left over |
| MarkerRestore.StepForEach | bin/perfmark-regions:153-184 | Where all regions are put back, the count returned is that of the commented regions |
| MarkerRestore.RestoredIff | bin/perfmark-regions:20-23 | Putting back restores the file if and only if no commented region starts with another commented one and none has one with a header of several lines inside |
| MarkerCheck.RestoredIfSource | bin/perfmark-regions:20-23 | Out and back in restores every source file none of whose regions that may be turned off starts with another such region or holds one with a header of several lines |
| MarkerCheck.RestoredIffClear | bin/perfmark-regions:20-23 | And only such a file, if no refused region is within reach of one that may be turned off |
| MarkerCheck.Check | bin/perfmark-regions:277-289 | The check passes exactly if putting back the lines that turning off gives restores the file: never for a file with regions commented out before, always under the condition on the source, and with nothing missed only then |
| MarkerExamples.NestedChanges | bin/perfmark-regions:153-184 | A file with a region in a region that does not come back |
| MarkerExamples.OneRegion | bin/perfmark-regions:123-149 | A file with one region, line by line, live and commented out |
| BlockDump.BlocksFile.JsonStr | client/drperf.c:1075-1089 | The loop writes the escaped string |
| BlockDump.BlocksFile.WriteKey | client/drperf.c:1177-1193 | One record: header line, then the slots that ran |
| BlockTokens.UnescapeEscaped | client/drperf.c:1079-1087 | JSON decoding undoes escaping, for every string |
| BlockTokens.TokensOfJoined | lib/derive.py:35-48 | Strings and numbers written with blanks between them are read back as written |
| BlockTokens.HeaderReadsBack | lib/derive.py:59-62 | The tokens of a record's header are those the client wrote |
| BlockLoad.LoadBlocks | lib/derive.py:51-79 | The loop over lines loads what the line-by-line specification says |
| BlockLoad.LoadDump | lib/derive.py:51-79 | From the printed lines the loader recovers exactly the keys |
| BlockLoad.LinesOfConcat | lib/derive.py:58 | Splitting the file into lines gives back the printed lines |
| BlockLoad.VecOfMeaning | lib/derive.py:77-79 | The recovered counts are those of the slots that ran |
| BlockLoad.DumpAndLoad | client/drperf.c:1177-1193 | Writing and loading gives back region, states, overflow mark, root, count and counts of every key |
| BlockLaws.HeaderLineIs | client/drperf.c:1177-1189 | A record's first line, character by character: index, region, number of states or -1, names and values, root, count |
| BlockLaws.NewHeader | lib/derive.py:59-70 | A header that names its states is read as they are; a negative number of them marks the bucket |
| BlockLaws.OldHeader | lib/derive.py:71-73 | A header of older files has one state, or an empty name for none |
| BlockLaws.LastRecordCounts | lib/derive.py:58-79 | In any file that loads no index is there twice, and of several records of one index the last one counts |
| BlockLaws.HexCharIs | lib/derive.py:41-42 | Four hexadecimal digits in either case stand for their character, unless it is a surrogate |
| BlockLaws.ShortEscapes | lib/derive.py:41-42 | The eight short escapes of a JSON string |
| BlockLaws.ParseIntIff | lib/derive.py:77-79 | A number is digits, at least one, after a minus sign or none |
| Handshake.NextKeeps | examples/c_suite/c6_queue.c:40-72 | Every step of every interleaving keeps the invariant |
| Handshake.RingIsExclusive | examples/c_suite/c6_queue.c:19-38 | The two threads never touch the ring together |
| Handshake.QueueInvariant | examples/c_suite/c6_queue.c:2-7 | At every consume q is cum(m) - cum(q), and no produce is open while the consumer drains |
| Handshake.PopsArePushes | examples/c_suite/c6_queue.c:19-38 | What is popped is what was pushed, in order: no slot is overwritten before it is read |
| Handshake.NoDeadlock | examples/c_suite/c6_queue.c:40-69 | One of the threads can step if and only if not both are through |
| Handshake.AllConsumed | examples/c_suite/c6_queue.c:56-72 | When both are through, every item of every round was consumed: 5, 25, 45 and 65, and over again |
| Handshake.EveryRunEnds | examples/c_suite/c6_queue.c:40-72 | But for waits that return for no reason every run is finite: at most a number of steps fixed by the rounds, and three for each such wait; one that cannot go on has consumed everything |
| Playground.Jobs | examples/playground/system.c:203-215 | The jobs follow one another over the popped range, none empty, at most one per thread, all but the last of the fewest lines that suffice |
| Playground.InOneJob | examples/playground/system.c:203-215 | Each popped line is in exactly one job |
| Playground.System.IngestLines | examples/playground/system.c:121-136 | Ingesting overwrites no queued line |
| Playground.System.HandleLines | examples/playground/system.c:194-219 | The next lines in order are handled, however they are divided |
| Playground.System.RunRounds | examples/playground/system.c:240-257 | The loop ends, inflight is cum(batch) - cum(q) at every handle, all requests are handled in order, and every batch and every pop is its round's |

## Left out

- DynamoRIO itself, symbol lookup and instruction emission: an executed basic block is one step that adds its count to the
  thread's total and to the current array.
- Interleavings inside a marker callback: callbacks are atomic steps, and so is a thread's start.
- Client.Profiler.CloseFrame: does not model the system-call sum and the time stamps of a frame.
- Client.Profiler.MergeStats: does not model the system-call sums.
- `perfmark_state`, system-call counts and time stamps; the options other than the trace limit and the counter size.
- 64-bit wrap-around of a thread's total: a step that would wrap is not enabled (`Attribution.Enabled`).
- Accounting.ArraysAreExact: supposes at most MAX_THREADS threads, because later threads share the last index.
- Reports.OtherThreadsAreFollowers: supposes at most MAX_THREADS threads and no denied array, as the report does.
- Memory outside the counter budget: other allocations succeed. Counter arrays are a map from key and thread to a list of
  counters, and a thread's 64-frame stack is a list.
- KeyCache.ThreadCache.GetKey: requests are bounded strings without the separator byte, with one to four states, as the
  begin markers pass them; the number of keys is not limited to MAX_KEYS.
- The `state_name` and `state_value` copies in a key, which repeat its first state.
- Rounding: the derivation is over real numbers and the relation search over integers; the tolerance comparison of
  non-integer states in `exact_relations` is not modelled.
- RequestRuns.ArraysByRequest: requests as for `KeyCache.ThreadCache.GetKey`, and at most MAX_THREADS threads.
- Pipeline.Analyse: the keys of one file; merging the files of several processes is left out.
- DeriveRegime.Derive: the order of the list of blocks, and the sorting of the points, are the caller's; the list has every
  block that ran, once.
- The calibrated marker cost that is subtracted from a formula's constant.
- `nested_calls` and `inclusive_vectors`, which only sum what `NestedMap.NestedMap` returns.
- Features.FeatureRows: the list of regions and fields is a parameter.
- The text of a reported relation, with its aliases and signs.
- Python's parser: `MarkersOff.TurnOff` walks a tree of regions, each with the number of statements around it, instead of
  Python's whole tree. One-line `with` statements are left out.
- MarkersOff.TurnOff: supposes lines that end in a newline, headers whose lines all keep the statement's indent and whose
  last line is the first to end in a colon with all brackets closed, and no marks but those of regions commented out
  before. A header with a comment after its colon is outside this: the scan for the header's end then runs on into the
  body.
- MarkerCheck.Check: does not model the parse of the rewritten file, nor that a file without live regions is passed over.
- Suppression comments for unused imports.
- PerState.PerState: state values are the whole numbers the client writes, and counts are not negative.
- BlockLoad.LoadBlocks: a line Python would refuse, or that holds numbers that are not whole or have a plus sign or
  underscores, loads as nothing; a name is a string of characters, and the client's strings hold no NUL.
- Surrogate pairs in JSON strings, which the client never writes, and the `.slots` table.
- Handshake.EveryRunEnds: no bound on how often a wait may return for no reason.
- Playground.System.RunRounds: supposes batch and cap of at least 1; with a batch of 0 the loop would not end. Line
  contents, the lookup table and the output buffer are not modelled.
- Report formatting, demangling, subprocess and environment setup, calibration, late attach, language bindings and the
  other example programs.

# Verification of DESTINY's memory allocator and optimiser

DESTINY chooses the internal organisation of a memory: how many mats a bank has, how many
subarrays a mat has, how many of each are active on an access, and how wide the column
multiplexers are. This project models how it divides a memory's bits over such an
organisation, how it searches the organisations, and three smaller algorithms around that
search, and proves what they compute.

How the bits are divided:

- `PowersOfTwo` holds the integer logarithms. The code writes `(int)(log2(x) + 0.1)`; since
  1024 is 2^10 this is the base-1024 logarithm of 2 x^10, truncated toward zero, and
  `RoundedLog2` says exactly that for every positive quotient.
- `Organisation` gives the settings of a bank and of a mat, and the plan each `Initialize`
  arrives at as a function of its settings. `Mats` and `Banks` are the objects, proved against
  those functions; `HtreeRouting` is the walk down the H-tree that fills the level arrays, and
  `BankRouting` compares it with the closed form of the bank without an H-tree. `Acceptance`
  says which mats and banks are accepted, and what a mat is handed, without those functions.
- `Capacity` proves that no bit is lost: rows, columns, mats, subarrays and dies multiply to
  the capacity, so the exit "Shouldn't happen" of the search is unreachable. The search method
  `Search.TryOne` contains that exit as an `assert false`.
- `WireLength`, `RoutingEnergy` and `Predecoding` cover the wires of the H-tree, the wires of
  the bank without one, and the predecoders.

How organisations are searched:

- `LoopNest` gives the tuples a nest of doubling or counting loops visits; `Search` is the
  nest over fourteen counters, `SearchedBanks` the banks it builds and offers in terms of the
  bounds, `Refinement` the sweeps over wires, `Optimiser` the whole run with and without
  constraints, `CellMerge` the comparison of several cell types. `Results` is the class whose
  comparisons all of them feed. `Trials` builds one bank and measures it.

Beside the search: `Pareto` (the filters of the Python tools), `Repeater` (the penalised
repeater), `OutputDriver` (inverter chains) and `PhysicsPenalties` (the Python constraints
against the allocator they imitate). `Reals` holds facts about products and quotients.

The electrical checks of a subarray are an arbitrary predicate on the request, and the area,
delay and power of a built bank are arbitrary functions of its settings, its subarray and its
wires; every result holds for all of them. Counts, active counts, mux degrees, associativity
and dies are powers of two. Capacity and block size are arbitrary unless a contract says so.

## What the code does not do

Where a promised property fails, the project states exactly when it holds.

- Capacity. Without any assumption on capacity and block size, a valid bank passes the
  capacity check exactly when the capacity is a power of two of the bits it keeps of a set,
  and these fall short of what was asked by a factor of at most the tenth root of two
  (`CheckExact`). If the active partitions divide the block that means a power-of-two number
  of sets on every die (`CapacityConserved`); for such a capacity a data bank passes exactly
  when they divide the block (`DataCheckExact`). The guard of the search ensures that for
  powers of two (`GuardLeavesExactDivision`) but not for a word of twelve bits, with any
  number of sets (`DataCheckCanFail`). No lower bound on the capacity is needed: a bank with
  at most one set on a die is always rejected.
- Refinement. `TRY_AND_UPDATE` does not test `invalid`. For every cell the organisation, the
  capacity and optimality survive that (`SweepDescends`, `RunOptimal`). Validity does not: a
  sweep leaves a valid bank valid exactly when no invalid trial wins it
  (`SweepValidExactly`). A run ends valid exactly when no invalid trial wins the global sweep
  and, unless that replaces the bank, none wins the local one and, unless that replaces it
  either, refinement finds the bank of the search valid (`RunValidExactly`); for data arrays
  the last always holds (`DataRunValidExactly`). An eDRAM bank that fails its retention time
  keeps its metrics and can win (`InvalidBankAdopted`); where invalid banks have worst-case
  metrics none can (`RunValid`).
- `pareto_frontier_nd` is documented as minimising but keeps the maxima (`ParetoFrontierNd`,
  `FrontierIsDual`). The two agree exactly when no row dominates another
  (`FrontierMatchesDocumentation`); `FrontierDropsCheaper` is a table of two rows.
- `OutputDriver::Initialize` recomputes the effort when it clamps a last stage. If that effort
  is below one, the stages before it exceed the maximum width; `ChainSized` is the exact
  condition, and `ClampedChainOversized` gives a load. No caller passes such a load: driven by
  an inverter or a NAND gate of minimum size, the recomputed effort is the ratio of the width
  limits (`CallersNeverOversized`). The second width check of the area-first mode cannot fail.
- The arrays of `OutputDriver` hold twenty stages. A chain is written within them exactly when
  `Fits` holds: a trade-off chain needs fewer than twenty stages before the last. For every
  load the program passes its effort is the ratio of the drive width to the minimum width
  (`TradeOffOfGate`), so no chain overruns as long as the ratio of the width limits takes fewer
  than twenty stages (`CallersFit`), which with an effort of four a stage is any ratio below
  4^19; beyond that the widest drive does (`WidestDriveOverruns`). A latency-first chain that
  does not invert, which no caller asks for, underruns exactly when its effort takes at most
  one stage (`NoStageUnderruns`).
- `findPenalizedRepeater` never changes the spacing: the size is not reset between its passes,
  so only the first spacing is scanned, and the size is what `Settles` says of that scan.
- `PredecodeBlock::Initialize` shifts a size field it has not set when a block has nineteen
  bits or more; its first stage is then exact if and only if that field held one
  (`PredecodeBlock.Initialize`, `NineteenBits`). A predecoder of a mat meets this only with 37 bits or more,
  which its 32-bit row count cannot hold; up to 36 every block is exact (`PredecodersExact`).
- The H-tree halves the vertical wire tiers when there are exactly two horizontal levels
  (`Tree.VerticalTiers`). The bank without an H-tree counts no leakage for the wires of
  inactive rows (`Bank.Before`).
- The address-bit penalty for tags ignores the bits that select a die; it agrees with the
  allocator exactly when those are not all that is left (`AddressPenaltyExact`), and
  `PenaltyMissesDies` is a cache on two dies.

## Model

| member | source | states |
|---|---|---|
| `PowersOfTwo.RoundedLog2Exact` | BankWithHtree.cpp:141-146 | The rounded logarithm of a quotient that is a power of two is its exponent, so numAddressBit is exact on whole numbers of sets |
| `PowersOfTwo.RoundedLog2BelowOne` | BankWithHtree.cpp:141-146 | A quotient below one never gives a positive number of address bits |
| `PowersOfTwo.RoundedDown` | BankWithHtree.cpp:141-146 | The rounded logarithm of 2^j k / d, with k at most d, is j if and only if d exceeds k by a factor of at most the tenth root of two |
| `Organisation.GatingBits` | BankWithoutHtree.cpp:105-107 | The address bits that switch off inactive blocks are log2 of the total counts minus log2 of the active counts |
| `Organisation.RedistributionExact` | BankWithHtree.cpp:411-432 | Spreading the ways that share a row over the mux levels multiplies the mux product by exactly the ways per row, keeps powers of two, and leaves the bitline mux of DRAM cells alone |
| `Acceptance.ClampedExactly` | BankWithHtree.cpp:159-192 | A bank keeps each active count as asked or as large as the total, whichever is smaller, and everything else as asked |
| `Acceptance.RedistributionSpread` | BankWithHtree.cpp:411-432 | The bits that the mux degrees gain sum to those of the ways that share a row: for SRAM the two output levels gain the same and the sense amplifier that or up to two more, for DRAM the sense amplifier none and the first output level as much as the second or one more |
| `Acceptance.SpreadUnique` | BankWithHtree.cpp:411-432 | These conditions leave one choice of mux degrees |
| `Acceptance.AcceptedExactly` | Mat.cpp:65-112 | A mat is accepted if and only if address bits are left to its subarrays, enough of them for its mux, every active subarray has a data bit, and the electrical rule takes the subarray of those rows and columns; it then has them |
| `Acceptance.HandedOver` | BankWithoutHtree.cpp:105-169 | A bank hands over a mat if and only if the ways of a set fit its rows, or for tags a set has one row and every active mat a whole way; every field of that mat is given, its mux as spread |
| `Acceptance.HtreeHandedOver` | BankWithHtree.cpp:379-445 | Whatever mat the H-tree hands over is that mat of a legal bank |
| `Acceptance.BankAcceptedExactly` | BankWithHtree.cpp:379-457 | Both kinds of bank are accepted if and only if the bank is legal and the mat it describes works; both then hand over that mat and get its rows and columns |
| `Capacity.GatingExact` | Mat.cpp:65-68 | Total blocks are 2^(gating bits) times the active blocks |
| `Capacity.SubarrayCells` | Mat.cpp:75-95 | Rows times columns of one subarray are the addressed sets times the bits and ways it holds, although both were divided by or multiplied with the mux degrees |
| `Capacity.MatCells` | Mat.cpp:65-95 | All subarrays of an accepted mat together hold every set, every way, and the data rounded down to the active subarrays |
| `Capacity.DataBankCells` | macros.h:168-170 | The product of all dimensions of any valid data bank is 2^A sets of all ways on all dies with the block rounded down to the active partitions, for any capacity and block size |
| `Capacity.TagBankCells` | macros.h:193-195 | The same for a tag bank, whose ways are shared among the active mats and whose tag is shared among the active subarrays of a mat |
| `Capacity.CapacityConserved` | macros.h:168-206 | Data and tag: if the active partitions divide the block, a valid bank stores exactly 2^A sets, and the capacity check passes if and only if the capacity is a power-of-two number of sets |
| `Capacity.DataCheckExact` | macros.h:168-181 | For a power-of-two number of sets, the data check passes if and only if the active partitions divide the block |
| `Capacity.StoresKeptBits` | macros.h:168-206 | Any valid bank, data or tag, stores 2^A times the bits it keeps of a set |
| `Capacity.CheckExact` | macros.h:168-206 | For any capacity and block size, the check passes if and only if the capacity is a power of two of the bits kept of a set, and the bits asked for exceed those by a factor of at most the tenth root of two |
| `Capacity.GuardLeavesExactDivision` | main.cpp:464-467 | A block that is a power of two and not skipped by the guard is divided exactly by the active partitions |
| `Capacity.DataCheckCanFail` | main.cpp:464-476 | For any number 2^k of sets, k > 0, a word of twelve bits over eight active mats passes the guard, is accepted exactly when the electrical rule takes its one subarray, and then fails the capacity check |
| `HtreeRouting.ExhaustionEndsWalk` | BankWithHtree.cpp:245-249 | An exhausted state anywhere on the walk means that the walk does not survive, whatever the order of splits |
| `HtreeRouting.SplitColumnsOnly` | BankWithHtree.cpp:250-263 | One step of the first loop: next signals and one more recorded horizontal level |
| `HtreeRouting.ReduceHorizontal` | BankWithHtree.cpp:243-266 | The first loop records horizontal levels down to the vertical count, or ends only on a walk that cannot survive |
| `HtreeRouting.SplitRowsOnly` | BankWithHtree.cpp:274-299 | One step of the second loop: next signals and one more recorded vertical level |
| `HtreeRouting.ReduceVertical` | BankWithHtree.cpp:267-302 | The second loop records vertical levels down to the horizontal count, or ends only on a walk that cannot survive |
| `HtreeRouting.SplitColumns` | BankWithHtree.cpp:310-335 | The column half of the third loop's step |
| `HtreeRouting.SplitRows` | BankWithHtree.cpp:341-358 | The row half of the third loop's step, with the vertical tiers as counted |
| `HtreeRouting.SplitBoth` | BankWithHtree.cpp:304-358 | A whole step of the third loop with both early exits |
| `HtreeRouting.ReduceBoth` | BankWithHtree.cpp:303-363 | The third loop records all remaining levels of both kinds |
| `HtreeRouting.Route` | BankWithHtree.cpp:215-377 | The four loops exit early if and only if the walk does not survive; otherwise every cell of both level arrays holds its closed form and the signals are those of one mat |
| `HtreeRouting.LevelInvariant` | BankWithHtree.cpp:234-363 | At every level the branches are the active ones times 2^(address bits spent), and active branches times distributed bits is the bank's distributed bits whenever they divide evenly |
| `HtreeRouting.HorizontalOrder` | BankWithHtree.cpp:244-363 | A horizontal level is recorded as soon as no more row splits than column splits are left, and its wires times the branches along its own direction are all its branches |
| `HtreeRouting.VerticalOrder` | BankWithHtree.cpp:267-363 | A vertical level follows the column splits that leave no more of them than row splits; its wires times the branches along its own direction are all its branches, but half as many with exactly two horizontal levels once a column is split |
| `HtreeRouting.LeavesAreMats` | BankWithHtree.cpp:365-377 | After the last split the branches are all mats, the active ones the product of the two active counts, and the address bits spent are the gating bits |
| `BankRouting.MatSignalsClosed` | BankWithoutHtree.cpp:105-112 | The loops leave a mat the closed-form share of address and distributed bits |
| `BankRouting.EarlyExitStarves` | BankWithHtree.cpp:224-369 | A walk that ends early would have left the mat no address bit, or nothing to route |
| `BankRouting.StarvedMatRejected` | Mat.cpp:65-91 | A mat without address bits or without data bits is rejected under any electrical rule |
| `BankRouting.HtreeRefinesClosedForm` | BankWithoutHtree.cpp:105-169 | For every bank the two kinds hand the mat the same settings, or the H-tree refuses a bank that the closed form cannot make valid under any electrical rule |
| `BankRouting.SamePlan` | BankWithHtree.cpp:224-445 | Both kinds of bank end in the same rows and columns, or both are rejected |
| `Banks.BankWithHtree.constructor` | BankWithHtree.cpp:13-16 | A new bank is neither initialised nor invalid |
| `Banks.BankWithHtree.Initialize` | BankWithHtree.cpp:62-466 | The bank is invalid exactly when the plan is rejected; otherwise it keeps the clamped settings with their original mux degrees, its mat has the planned rows and columns, and every level is recorded |
| `Banks.BankWithHtree.Configure` | BankWithHtree.cpp:128-222 | Clamped settings, fresh level arrays of the right lengths, and the signals at the root |
| `Banks.BankWithHtree.Build` | BankWithHtree.cpp:215-457 | From a configured bank, routing and hand-over decide validity, rows and columns as planned, with every level recorded |
| `Banks.BankWithHtree.CheckWays` | BankWithHtree.cpp:379-440 | The way checks and the mux redistribution give the hand-off to the mat |
| `Banks.BankWithHtree.HandToMat` | BankWithHtree.cpp:442-457 | The mat decides validity and the mux degrees are put back afterwards |
| `Banks.BankWithoutHtree.Initialize` | BankWithoutHtree.cpp:25-215 | The bank is invalid exactly when the closed-form plan is rejected; otherwise it keeps the clamped settings, its mat has the planned rows and columns, and the wires it routes are those of the mat |
| `Banks.BankWithoutHtree.ShareOut` | BankWithoutHtree.cpp:105-159 | The closed-form hand-off to the mat, and the address bits, data bits and ways kept for routing |
| `Banks.BankWithoutHtree.HandToMat` | BankWithoutHtree.cpp:162-215 | The mat decides validity and the mux degrees are put back afterwards |
| `Banks.BankAddressBudget` | BankWithoutHtree.cpp:105-140 | Every address bit of a valid bank is spent once: inactive mats, inactive subarrays, row predecoder, column mux; the mux of a data mat also selects among the ways of a row |
| `Mats.Mat.Initialize` | Mat.cpp:23-173 | A mat is invalid exactly when the plan is rejected; otherwise rows, columns and all predecoders are those of the plan, unless a predecode block of more than 27 bits ends the process |
| `Mats.Mat.Fill` | Mat.cpp:75-163 | From the address bits left, sizes the subarray and the predecoders or rejects |
| `Mats.Mat.SizeSubarray` | Mat.cpp:75-95 | Rows and columns of a subarray, refused exactly when one of them is zero |
| `Mats.Mat.SizePredecoders` | Mat.cpp:113-163 | Four predecoders of two blocks each, all eight initialised for their share of the bits, and their outputs added up |
| `Mats.SplitBits` | Mat.cpp:113-117 | Two blocks share the bits of a predecoder: nothing is lost, up to three bits stay in the first, and from four on the first has as many as the second or one more |
| `Mats.OutputsOfBlocks` | Mat.cpp:119-163 | The outputs of a predecoder are those of its two blocks added up, where a block without address bits counts as one |
| `Mats.AddressBudget` | Mat.cpp:65-107 | In a valid mat the address bits are gating bits plus row bits plus mux bits, and the rows are 2^(row bits) times the ways for data, times one for tags |
| `Mats.PredecodersExact` | Mat.cpp:107-163 | With at most 36 address bits left to a subarray every predecode block of a valid mat has at most 18, so none ends the process and every first stage is exact |
| `Mats.NewBlocks` | Mat.cpp:124-160 | The eight blocks are sized for their bits in order, until one of more than 27 bits ends the process |
| `Predecoding.DecodersCoverBits` | PredecodeBlock.cpp:62-75 | The basic decoders together decode exactly the address bits, and at most six of them cover up to 18 bits |
| `Predecoding.PredecodeBlock.Initialize` | PredecodeBlock.cpp:44-147 | Decoder counts, the limit of 27 bits, the groups of the first stage, and that the stage is exact if and only if the block has at most 18 bits or the field that is never set held one |
| `Predecoding.PredecodeBlock.SizeGroups` | PredecodeBlock.cpp:75-133 | The decoders are dealt to the groups of the first stage as evenly as possible, earlier groups first, with eight outputs for each decoder of the later groups |
| `Predecoding.PredecodeBlock.SizeTwoGroups` | PredecodeBlock.cpp:92-100 | With four to six decoders these are dealt evenly to two groups whose outputs multiply to 2^bits |
| `Predecoding.PredecodeBlock.SizeThreeGroups` | PredecodeBlock.cpp:110-133 | With seven to nine decoders these are dealt evenly to three groups whose outputs multiply to 2^bits times the old value of a field that is never set |
| `Predecoding.NineteenBits` | PredecodeBlock.cpp:113-133 | A block of nineteen bits in cleared memory has a first stage whose outputs do not multiply to its own |
| `Predecoding.NewBlock` | PredecodeBlock.cpp:44-51 | A block in memory of unknown contents is sized for its bits, and exactly up to 18 bits |
| `LoopNest.TuplesExact` | macros.h:107-138 | The nest visits a tuple if and only if every counter is a value of its own loop, with the caps of the outer counters |
| `LoopNest.TuplesBySteps` | macros.h:107-138 | The same counter by counter: every value is one its own loop takes once the counters before it are fixed |
| `LoopNest.TuplesOrdered` | macros.h:107-138 | Tuples come in increasing order, the outermost counter slowest, and none twice |
| `Search.VisitedCounters` | macros.h:107-138 | Every organisation visited has powers of two and no more active blocks than blocks |
| `SearchedBanks.SpaceExact` | macros.h:107-121 | The search visits exactly the fourteen counters of which the first thirteen are their start times a power of two and at most their end, with the caps of the four active counts and of the associativity, and the last is within its bounds |
| `SearchedBanks.SpaceOrdered` | macros.h:107-121 | In that order and without repetition |
| `SearchedBanks.PreparedExactly` | main.cpp:369-380 | For any bank settings: its counters are prepared as those settings if and only if the block is the job's, or for tags the least multiple of the active partitions that holds the tag, the capacity and associativity are the job's, and the guard passes |
| `SearchedBanks.OffersAreTrials` | main.cpp:462-484 | The search offers exactly the valid trials, passing the filter, of all settings for the job within the bounds |
| `SearchedBanks.TrialExactly` | macros.h:143-156 | A trial holds a bank if and only if the bank is legal and its mat works under the rule of the local wire; it has the rows and columns of that mat and is measured with them on both wires, and otherwise it is invalid with worst-case metrics |
| `Trials.Calculate` | macros.h:143-156 | Builds and measures a bank of either kind; the trial is the specified one |
| `Trials.RebuildSameTrial` | macros.h:91-94 | Building again from the fields a bank kept is the same trial in every respect |
| `Trials.RoundedWidthLeast` | main.cpp:375-378 | The tag width asked for is the least multiple of the active partitions that holds the tag |
| `Trials.CacheJobsValid` | main.cpp:361-455 | A cache of power-of-two geometry gives the search a valid data array in each access mode, and a valid tag array exactly when a tag bit is left |
| `Trials.DataArrayOfMode` | main.cpp:433-455 | Every access mode stores the whole capacity; a set is a word on every way, a word of the one way known, or one word as wide as all ways |
| `Trials.TagArrayOfCache` | main.cpp:361-381 | There is a tag for every word, and tag, index and offset bits make up 48 address bits and two flags |
| `Trials.PreparedCountable` | main.cpp:367-380 | Every organisation the data or tag search builds meets the conditions under which capacity is conserved, for any positive tag width |
| `Trials.TrialConservesCapacity` | macros.h:168-206 | The capacity violation exit is unreachable for such an organisation, with or without an H-tree |
| `Results.Result.constructor` | Result.cpp:105-138 | A new result has worst-case metrics and no limits |
| `Results.Result.Reset` | Result.cpp:150-159 | Metrics go back to the worst case, everything else stays |
| `Results.Result.CompareAndUpdate` | Result.cpp:161-214 | The new state is the better of the two under the limits and the target; the return value tells whether it changed |
| `Results.BestIsFirstMinimum` | Result.cpp:164-214 | Any run of comparisons keeps the first minimiser of the target among the admitted offers, or what was held if none beats it |
| `Search.OffersExact` | main.cpp:472-478 | Exactly the valid trials of visited organisations that pass the filter are offered |
| `Search.UpdateBest` | macros.h:159-165 | Every target's result is compared with the offered bank |
| `Search.TryOne` | main.cpp:463-484 | One organisation: guard, build, capacity check that cannot fail, compare; results hold the best and the solution is counted |
| `Search.Visit` | macros.h:107-138 | The nest from any counter inwards leaves the best of all offers below it |
| `Search.VisitLoop` | macros.h:107-138 | One counter's loop does |
| `Search.SearchSpace` | main.cpp:462-484 | A whole search leaves in every result the best of its start and all offers in order, and counts the offers |
| `Refinement.SweepKeepsBase` | macros.h:86-103 | A sweep never changes the organisation or the other layer's wire and never raises the objective |
| `Refinement.SweepOptimal` | macros.h:86-103 | After a sweep no admitted wire of the layer does better |
| `Refinement.TryAndUpdate` | macros.h:86-103 | Rebuild from the stored fields on the new wire and compare |
| `Refinement.TryWire` | main.cpp:494-497 | One wire is tried on every result |
| `Refinement.SweepFrom` | macros.h:46-57 | The wire loops try exactly the legal wires in order |
| `Refinement.WireSpaceExact` | macros.h:46-57 | A sweep tries exactly the wires within the bounds that are not both repeated and low-swing |
| `Refinement.Refine` | main.cpp:489-501 | One refinement pass leaves every result refined by all wires of the layer |
| `Optimiser.SearchOptimal` | main.cpp:462-484 | As soon as one valid bank exists every target's result is the first valid bank that minimises it |
| `Optimiser.SearchReady` | main.cpp:486-497 | Then every result holds a bank that can be rebuilt |
| `Optimiser.BuiltIsShaped` | macros.h:91-94 | A bank built on any wires has the rows and columns that its settings alone determine |
| `Optimiser.SweepDescends` | main.cpp:489-514 | For every cell and all limits a sweep is coordinate descent: same organisation down to rows and columns, other wire kept, objective not raised, no admitted wire of the layer better |
| `Optimiser.SweepOutcome` | macros.h:86-103 | A sweep stores the trial of the one wire that is its first minimum, or changes nothing |
| `Optimiser.SweepValidExactly` | macros.h:86-103 | For every cell and all limits a sweep leaves a valid bank valid if and only if no invalid trial wins it |
| `Optimiser.SweepValidity` | macros.h:86-103 | From a bank that may be invalid, a sweep ends valid if and only if no invalid trial wins and, if none wins at all, the bank was valid |
| `Optimiser.TryKeepsValid` | macros.h:86-103 | The case of one wire: valid unless its trial is invalid, admitted and better |
| `Optimiser.RunOptimal` | main.cpp:462-515 | For every cell, and whatever refinement measures: search, local wires, global wires end with the organisation and the capacity the search verified, and no bank of the search, no admitted local or global wire tried does better |
| `Optimiser.RunValidExactly` | main.cpp:361-415 | For data and for tags, and whatever technology refinement sees: the run ends in a bank that refinement finds valid if and only if no invalid trial wins the global sweep and, unless that replaces the bank, none wins the local sweep and, unless that replaces it, the bank of the search is valid to refinement |
| `Optimiser.DataRunValidExactly` | main.cpp:462-515 | For data arrays, whose search bank is always valid: if and only if no invalid trial wins the global sweep and, unless that replaces the bank, none wins the local sweep |
| `Optimiser.SweepEndsValid` | main.cpp:489-514 | Where invalid banks have worst-case metrics a sweep always ends valid and no wire does better |
| `Optimiser.RunValid` | main.cpp:462-515 | Where invalid banks have worst-case metrics the run always ends valid, and no wire tried does better |
| `Optimiser.InvalidBankAdopted` | BankWithoutHtree.cpp:541-545 | A cell whose slow wires fail retention but leak less ends with an invalid bank |
| `Results.AdmitsObjectives` | Result.cpp:164-168 | The eight limits bound each objective by its own limit and nothing else |
| `Optimiser.LimitsAreTolerances` | main.cpp:597-606 | The limits of the constrained search admit exactly the banks whose every objective is within its tolerance of the result optimised for it |
| `Optimiser.FilterRedundant` | main.cpp:620-623 | The filter of the constrained search admits what the limits of the comparison admit, so results are the same with and without it |
| `Optimiser.ConstrainedOptimal` | main.cpp:596-631 | After the constrained search a result has worst-case metrics and nothing within the limits beats it, or it meets all eight limits and is the first minimiser of all valid banks that meet them |
| `Optimiser.ConstrainedHolds` | main.cpp:611-630 | A result keeps worst-case metrics only if no valid bank meets all eight limits; otherwise it is the first minimum of those that do, and conserves capacity |
| `Optimiser.NoneWithinLimits` | main.cpp:611-630 | Nothing within the limits beats worst-case metrics only if nothing is within the limits |
| `Optimiser.UnconstrainedOptimal` | main.cpp:462-515 | What a run leaves for one target has the organisation of the first minimum of the search, conserves capacity, is beaten by no valid bank of the search, by no admitted global wire with its local wire, and by no admitted local wire with the global wire of the search |
| `Optimiser.RunRefines` | main.cpp:462-515 | It is the first minimum of the search, swept over local and then over global wires |
| `Optimiser.WiresBest` | main.cpp:486-515 | After both sweeps no wire of either layer, admitted, does better |
| `Optimiser.AllOptimal` | main.cpp:486-515 | All this for every one of the eight targets |
| `Optimiser.FirstSearch` | main.cpp:462-484 | The first search leaves the best of all offers, ready for refinement if there are any |
| `Optimiser.RefineBoth` | main.cpp:486-515 | Local wires, then global wires, on every result |
| `Optimiser.SearchAndRefine` | main.cpp:361-415 | If the search finds anything, every result ends settled for its target as above, where refinement may see another technology than the search, as it does for tags |
| `Optimiser.ApplyLimits` | macros.h:382-392 | Every result is reset and takes the limits |
| `Optimiser.Impose` | main.cpp:597-609 | Limits drawn from the eight results, which are then reset |
| `Optimiser.SearchWithin` | main.cpp:611-630 | After the second search every result has its worst-case start, and then no valid bank meets the limits, or the first minimum within them, which conserves capacity |
| `Optimiser.Constrain` | main.cpp:596-631 | Limits from the best results, reset, second search |
| `Optimiser.Optimise` | main.cpp:462-631 | The data run: how many solutions were counted, that every unconstrained result is settled as above, and that under constraints no valid bank within the limits drawn from those results does better |
| `CellMerge.MergeOptimal` | main.cpp:250-272 | The merged data result is one cell's own, minimal among those meeting cell 0's limits and strictly better than every earlier one; data and tag come from the same cell unless different tag technology is allowed, and then the tag is best on its own |
| `CellMerge.MergedBest` | main.cpp:250-272 | What the comparison loops leave in cell 0's results is the best of all cells for every target |
| `CellMerge.MergeTarget` | main.cpp:252-270 | One target of one further cell |
| `CellMerge.MergeCell` | main.cpp:251-271 | All targets of one further cell |
| `CellMerge.MergeCells` | main.cpp:250-272 | All further cells: every target holds the merge of its column, and the best of it |
| `Pareto.UndominatedDominator` | pareto_analysis.py:13-25 | In a finite table every dominated row has a dominator that no row dominates |
| `Pareto.SurvivorsSuffice` | pareto_analysis.py:19-24 | Comparing a row with the survivors only gives the same answer as comparing it with all rows |
| `Pareto.IsParetoEfficient` | pareto_analysis.py:13-25 | Exactly the rows that no row dominates stay |
| `Pareto.ParetoFrontierNd` | destiny_utils.py:431-444 | Exactly the rows that dominate no row stay |
| `Pareto.RemovalStep` | destiny_utils.py:437-443 | A row that is already gone can be skipped: what dominates it is gone too |
| `Pareto.FrontierIsDual` | destiny_utils.py:431-444 | It is the first filter on negated costs |
| `Pareto.FrontierMatchesDocumentation` | destiny_utils.py:432-435 | It keeps the documented rows if and only if no row dominates another |
| `Pareto.FrontierDropsCheaper` | destiny_utils.py:441-442 | Of two rows with one cost it keeps the dearer |
| `Pareto.ParetoFrontier2d` | destiny_utils.py:416-429 | Exactly the undominated pairs stay |
| `Repeater.RatiosBelowTwo` | Wire.cpp:692 | If the energy ratio and the leakage ratio sum to less than two, energy times leakage falls |
| `Repeater.ScanImproves` | Wire.cpp:688-698 | A scan over sizes keeps the delay within the target and lowers energy times leakage unless it changes nothing |
| `Repeater.ScanDescends` | Wire.cpp:688-698 | The sizes taken are exactly such a chain, counted down from the old size |
| `Repeater.NoneBelow` | Wire.cpp:688-698 | No scanned size below the last of such a chain passes over it |
| `Repeater.ScanSettles` | Wire.cpp:688-698 | So the scan ends on a size no smaller scanned size passes over |
| `Repeater.AllowedShare` | Wire.cpp:675-683 | The delay allowed exceeds the first by exactly the penalty's share of it |
| `Repeater.Wire.ScanSizes` | Wire.cpp:688-698 | The inner loop ends below minimum size with the scanned choice |
| `Repeater.Wire.ScanSpacings` | Wire.cpp:687-699 | The outer loop ends and its choice is that of the first pass alone |
| `Repeater.Wire.FindPenalizedRepeater` | Wire.cpp:673-702 | Terminates; spacing unchanged, delay within the penalty, energy times leakage not raised; the size is the last of a chain from the old one, each within the delay and with energy and leakage ratios to the one before summing below two, no size between two or below the last passing that test |
| `OutputDriver.RootAtLeastOne` | OutputDriver.cpp:61-74 | The effort per stage is at least one if and only if the total effort is |
| `OutputDriver.LatencyStages` | OutputDriver.cpp:48-57 | Odd stages for an inverting chain, even for one that does not invert, and the least such number that is not below the one the effort asks for, unless that exceeds twenty; then twenty |
| `OutputDriver.TradeOffStages` | OutputDriver.cpp:98-107 | The same for the stages before the last: even for an inverting chain, odd for one that does not invert |
| `OutputDriver.LastWidthLeast` | OutputDriver.cpp:61-65 | Before it is clamped the last stage has the least width, not below the minimum, whose gates times the effort per stage make up the output capacitance |
| `OutputDriver.StageBeforeLeast` | OutputDriver.cpp:83-91 | The stage before another has the least width, not below the minimum, that drives it with the effort per stage |
| `OutputDriver.WidthRatio` | OutputDriver.cpp:81-90 | P-transistors are wider than N-transistors by the P/N ratio |
| `OutputDriver.Driver.FillDown` | OutputDriver.cpp:83-91 | The width of every N- and P-transistor towards the input |
| `OutputDriver.SizedByStages` | OutputDriver.cpp:83-91 | A chain filled down from a strong enough last stage is within limits and in order if and only if the effort is at least one or there is one stage |
| `OutputDriver.Driver.SizeForLatency` | OutputDriver.cpp:46-93 | Within its arrays if and only if there is a stage; falls back to the trade-off exactly when the last stage is too weak; otherwise every width is given, and the chain is well sized exactly under the stated condition |
| `OutputDriver.Driver.SizeForTradeOff` | OutputDriver.cpp:95-124 | Written within its arrays if and only if there are fewer than twenty stages before the last; then every width is given and the chain is well sized |
| `OutputDriver.Driver.SizeForArea` | OutputDriver.cpp:125-134 | One stage of the required width |
| `OutputDriver.Driver.SizeChain` | OutputDriver.cpp:46-134 | All modes, fall-through included |
| `OutputDriver.Driver.Initialize` | OutputDriver.cpp:23-140 | Invalid exactly when the required drive exceeds the maximum width; within bounds exactly under the stated condition; then stages of the right parity or capped, every N- and P-width, and widths within limits, in order and strong enough if and only if the clamped effort is at least one where it is used |
| `OutputDriver.CallersNeverOversized` | BasicDecoder.cpp:33-55 | For a load driven by an inverter or NAND gate of minimum size, as every caller passes, the recomputed effort is maximum over minimum width, at least one, so the chain is never oversized in any mode |
| `OutputDriver.TradeOffOfGate` | OutputDriver.cpp:96-97 | For a gate-driven load the effort of the trade-off chain is the ratio of its drive width to the minimum width, at least one |
| `OutputDriver.CallersFit` | RowDecoder.cpp:50-66 | No chain of a gate-driven load is written outside its arrays in any mode if the ratio of the width limits takes fewer than twenty stages |
| `OutputDriver.WidestDriveOverruns` | OutputDriver.cpp:100-111 | If that ratio takes twenty stages, the trade-off chain for the widest drive is written past its arrays |
| `OutputDriver.NoStageUnderruns` | OutputDriver.cpp:48-65 | A latency-first chain that does not invert has no stage, and is written before its arrays, if and only if its effort takes at most one stage |
| `OutputDriver.ClampedChainOversized` | OutputDriver.cpp:67-91 | For a logic effort far below any gate's the stage before the clamped one is wider than the maximum |
| `WireLength.VerticalSpan` | BankWithHtree.cpp:514-536 | A vertical wire spans at least the half mats below it, doubled per level, and exactly that when wires take no silicon |
| `WireLength.HorizontalSpan` | BankWithHtree.cpp:537-559 | The same for horizontal wires |
| `WireLength.CrossingByTracks` | BankWithHtree.cpp:530-548 | Twice a crossing is the pitch times the least number of tracks that hold the bits, each track shared by so many wires |
| `WireLength.VerticalByCrossings` | BankWithHtree.cpp:514-536 | For any pitch: a vertical wire is the half mats below it and the crossings of the horizontal levels below the one it meets, each doubled on the way up |
| `WireLength.HorizontalByCrossings` | BankWithHtree.cpp:537-559 | For any pitch: a horizontal wire is the mats below it and the crossings of the vertical levels it and those below it meet, each doubled on the way up |
| `WireLength.CalculateLengths` | BankWithHtree.cpp:511-559 | The three loops stay within both arrays and write every length once as specified, for any pair of level counts |
| `RoutingEnergy.AccumulateRows` | BankWithoutHtree.cpp:328-349 | At row i the wire is mat.height times (rows - i) long; the first row gives the latency, the active rows give energy and leakage |
| `RoutingEnergy.OneMoreBit` | BankWithoutHtree.cpp:340-345 | Every address and data bit is one wire, every way is one of a tag array and none of a data array |
| `RoutingEnergy.RoutingClosedForm` | BankWithoutHtree.cpp:328-349 | For a wire linear in its length the sum over active rows is e h bits n (a R - a (a - 1) / 2) |
| `PhysicsPenalties.DivisibilityPenaltyExact` | inverse_physics_validity.py:4-10 | On whole logarithms the penalty vanishes if and only if one power divides the other |
| `PhysicsPenalties.DerivedTagWidthExact` | inverse_physics_validity.py:101-115 | The derived tag width is the allocator's width before round-up if and only if that is positive |
| `PhysicsPenalties.AddressBitsExact` | inverse_physics_validity.py:161-170 | A tag mat has address bits left if and only if the bits the penalty counts exceed those that select a die |
| `PhysicsPenalties.AddressPenaltyExact` | inverse_physics_validity.py:161-170 | The address penalty agrees with the mat's check if and only if the bits left are not all needed to select a die |
| `PhysicsPenalties.PenaltyMissesDies` | inverse_physics_validity.py:161-170 | On two dies with one address bit left there is no penalty, yet both kinds of bank are rejected |
| `PhysicsPenalties.WayPenaltyExact` | inverse_physics_validity.py:146-149 | The way penalty vanishes if and only if every active mat holds a whole way |
| `PhysicsPenalties.TagPenaltiesExact` | BankWithHtree.cpp:389-403 | On one die both penalties vanish if and only if the tag bank passes the way check and the mat's address check; otherwise both kinds of bank are rejected under any electrical rule |

## Left out

- Optimiser.SearchOptimal: assumes that valid banks have metrics below the worst-case value 1e41, products included; otherwise a valid bank may never be taken up.
- Optimiser.SearchAndRefine: the tag loop sets the layer count of the technology for every organisation and refinement runs on whatever count came last; the search sees the count through the settings, and refinement through a second cell that is arbitrary but for being DRAM or not.
- Mats.Mat.Initialize: the end of the process in a predecode block of more than 27 bits is recorded in the mat and not carried on into the bank; PredecodersExact shows when it cannot happen.
- HtreeRouting.Route: the parallel level arrays are one array of records each, so writing them in step is not a separate statement.
- Search.Visit: the fourteen nested loops are one recursive method with a loop per counter, over bounds in sequences. The wire loops of Refinement.SweepFrom likewise.
- CellMerge.MergeCells: the results of further cells are only read by the source, so they are values here.
- WireLength.CalculateLengths: the bits on each level and the mat dimensions are inputs; bank height, width, the aspect-ratio check and vias are left to the arbitrary measurements.
- RoutingEnergy.AccumulateRows: mat latency and energy, refresh figures and vias, which the source adds before or after the loop, are not included.
- Banks.BankWithHtree.Initialize: says nothing of the mux degrees an invalid bank keeps, and re-initialising one object is not modelled, since the source always builds a new one.
- PhysicsPenalties.TagPenaltiesExact: the remaining penalties, which are smooth or stricter than the allocator, are not compared with it.
- Floating-point rounding and the 32-bit overflow of shifts such as `1 << bits`: integers are unbounded and physical quantities are real numbers.
- An associativity or a count that is not a power of two: the source reports the first and carries on, and the loops produce none of the second.
- External sensing, CAM, multi-level cell and plain DRAM chips: rejected or unfinished in the source.
- Device tables, sense amplifiers, precharge, comparators, vias, delay and power formulas: no structural property; arbitrary functions and predicates here.
- Configuration and cell files, console and CSV output, pruning and full exploration: input, output and an unfinished feature.
- The neural surrogate, its optimiser and its training: their behaviour is that of external libraries.
- `check_post_snap_partition` and `validate_cache_geometry`: they print or raise on a comparison of two products; no result here depends on them.

# Collective Fabric: a Dafny model

Collective Fabric plans, dispatches and accounts for collective operations (all-reduce,
reduce-scatter, broadcast and so on) over groups of ranks. This project models its core in Dafny
and proves what the core keeps, over all inputs and over whole runs.

`dafny verify dfyconfig.toml` checks everything.

## Layout

| file | content |
|---|---|
| `Runtime.dfy` | every locked section of the runtime as a function from a state to a state and an outcome, and the class whose methods are proved against those functions |
| `RuntimeRuns.dfy` | runs: whole sections and the four steps of any number of `execute_collective` calls in any order, the invariant, and what holds over every run |
| `RuntimeLaws.dfy` | what single calls achieve in reachable states, what leads to success, and what is counted |
| `RuntimeEffects.dfy` | each section in plain terms, every lifecycle move of every step, what planning stores and what executions deliver |
| `RuntimeLedger.dfy` | the accounting object as the ledger of what steps book |
| `RuntimeDrain.dfy` | what the active counter counts, and when it drains to zero |
| `RuntimeWitnesses.dfy` | concrete runs from the initial runtime in which a documented expectation fails |
| `Lifecycle.dfy`, `Accounting.dfy` | the guarded state machine and the counters the runtime uses |
| `Group.dfy`, `Permutations.dfy` | group construction, ranks and lookups |
| `Store.dfy`, `StoreLaws.dfy`, `StoreLayout.dfy`, `StoreFaults.dfy`, `StoreCodec.dfy`, `Canonical.dfy`, `Bytes.dfy` | the persistent-state format: specification, its laws, where each field lies, which fault refuses what, the imperative codec, the canonical encoding under it |
| `StoreFile.dfy`, `Recovery.dfy` | the file around a persisted state, and restart: save, load, rebuild, register |
| `Protocol.dfy`, `Crc32.dfy` | the framed stream protocol and its checksum |
| `ReferenceEngine.dfy`, `EngineLaws.dfy`, `EngineMeaning.dfy` | the in-process reference engine, the identities between collectives, and what every rank receives element by element |
| `Sha256.dfy`, `Sha256Meaning.dfy` | the streaming hash against FIPS 180-4, and that standard's constants, functions and padding |
| `Planner.dfy`, `PlannerLaws.dfy`, `PlannerCosts.dfy` | the cost model, the selection loops, what they select, and their numbers in plain arithmetic |
| `Authority.dfy`, `Topology.dfy`, `Foundation.dfy` | claim fencing, topology tables, shared types and checked arithmetic |

Code that changes state is modelled by classes and methods with loops; each method is proved
against a function of its inputs and the old state, and the lemmas are about those functions.

## Where the code and its documentation differ

The model follows the code. These are the differences it makes visible, each with the exact
condition and an input or run that shows it.

- The runtime asks every rank of an ALL_GATHER for an aggregate-sized input, and the engine then
  refuses it: an accepted all-gather completes exactly with at most one rank (`AcceptedCompletes`,
  `AllGatherNeverCommits`; `AllGatherFails`).
- `complete_rank` records the rank before the accounting may throw, and reports lost that way cannot
  be repeated (`LostReportsStayLost`; `ReportsLost`). It never asks whether the rank is a member's:
  any rank's report can be the one that settles (`SucceedsBy`; `ForeignRankSettles`).
- Reports alone bring an execution to SUCCEEDED before any output exists (`SucceedsBy`;
  `SucceededWithoutOutputs`).
- A second `execute_collective` on a running execution is refused and thereby fails the first one,
  whose outputs and success measurement are stored all the same (`RivalFailsTheRun`,
  `ConcludeEffect`; `RivalFailsARun`).
- Teardown is said to close active and reserved accounting to zero. The active counter counts the
  executions that are reserved, not committed and not ABORTED, exactly as long as no step closes what
  was never opened or is closed already, and then drains exactly when none is left
  (`CountsHeldIffDisciplined`, `DrainedIff`). Failing, cancelling and success by reports close nothing
  (`FailedStaysCounted`); aborting a collective that was never started closes somebody else's
  (`AbortUncountsAnother`); aborting a running one and then committing it closes its start twice
  (`AbortThenCommit`). The runtime never releases a reservation (`ReservationsStay`); the accounting
  object itself closes to zero under complete release exactly while the total fits in 64 bits
  (`TeardownClosesToZero`; `WrappedReleaseRefused`).
- A successful `execute_collective` throws after everything is stored exactly when no collective is
  counted active (`ExecuteSucceedsIff`; `SuccessThrows`).
- Presence and flag bytes other than 0 and 1 are accepted by the store, so re-encoding is exact only
  for payloads that use 0 and 1 (`CanonicalIffStrict`; `LooseBooleanAccepted`).
- `BACKEND_DEFAULT` is described as the fallback when no real algorithm is feasible; it is never
  selected (`NeverDelegates`).
- A participant may be given an explicit rank. Rank 0 is the null rank, so every buildable list is
  re-ranked by participant id, and explicit ranks survive exactly when they already follow the ids
  (`ExplicitRanksKept`; `ExplicitRanksOverridden`).
- `link_between` is described as returning the best known link; the first connecting link alone
  is asked, and that is the best exactly when no later one outdoes it (`BestKnownIff`;
  `MeasuredLinkPassedOver`).
- `advance_epoch` saturates: it fences older claims exactly below the largest epoch (`AdvanceFences`).

## Model

| member | source | states |
|---|---|---|
| `RuntimeRuns.StepKeeps` | src/runtime.cpp:115-329 | every step of an interleaving (a whole locked section, or one of the four steps of an `execute_collective` call) keeps the system invariant and only moves the runtime forward, also when the step throws part way |
| `RuntimeRuns.ReachKeeps` | src/runtime.cpp:115-329 | the invariant holds after every run of any length from the initial runtime |
| `RuntimeRuns.RunForward` | src/runtime.cpp:115-329 | between any two moments of any run groups and executions are never removed, groups never change, lifecycles go only where guarded moves lead, recorded ranks are never lost, and what a commit wrote is final |
| `RuntimeRuns.MoveAtMostOnce` | src/runtime.cpp:134-138 | in any run each lifecycle move of an execution, DISPATCHED to RUNNING in particular, is made by at most one step, whatever calls compete |
| `RuntimeRuns.AtMostSevenMoves` | include/collectivefabric/lifecycle.hpp:44-74 | in any run an execution's creation and lifecycle changes together number at most eight, less the moves still open to it |
| `RuntimeRuns.SettledForGood` | include/collectivefabric/lifecycle.hpp:64-71 | ABORTED, CANCELLED and STALE are never left and SUCCEEDED and FAILED go only to STALE, in every continuation of every run |
| `RuntimeRuns.CommittedForGood` | src/runtime.cpp:161-192 | outputs are empty until the one commit that writes them, and from then on outputs, measurement and descriptor never change; completions and the registered group are never lost |
| `RuntimeRuns.OutputsAreTheEngines` | src/runtime.cpp:115-197 | in every reachable state the outputs of a committed execution are the reference engine's result on the inputs of exactly one call with the registered rank count, and no other call got past its move to RUNNING without failing |
| `RuntimeEffects.CommittedDelivers` | src/runtime.cpp:115-197 | in every run, whatever interleaves, a committed execution holds at every rank of its group what its descriptor promises for the inputs of one call made on it: nothing, the root's bytes, everyone's bytes in rank order, or element by element the descriptor's operation folded in rank order |
| `RuntimeEffects.ExecuteDelivers` | src/runtime.cpp:115-197 | and so does an undisturbed call whose inputs have the right sizes |
| `RuntimeEffects.LifecycleExactly` | src/runtime.cpp:80-329 | in every reachable state every step moves an execution exactly as listed: planning, reserving, dispatching and starting each from their one predecessor, a commit from RUNNING and COMPLETING, a counted report on to COMPLETING or with the last member's rank to SUCCEEDED, failing from the six unsettled states, aborting from four, cancelling from five, retiring from SUCCEEDED and FAILED, and nothing else moves it |
| `RuntimeEffects.Origins` | include/collectivefabric/lifecycle.hpp:44-74 | the table read backwards: the states each move starts from |
| `RuntimeLedger.AccountingIsLedger` | src/runtime.cpp:91-233 | in every run the accounting object holds exactly the ledger of what the steps book, amounts included (payload reserved, payload failed, payload of all ranks completed), and the reserved bytes are the outstanding total modulo 2^64 |
| `RuntimeRuns.SucceededHasQuorum` | src/runtime.cpp:317-329 | in every reachable state a SUCCEEDED execution has a recorded completion for every rank of its registered, never changed group generation |
| `RuntimeLaws.AcceptedCompletes` | src/runtime.cpp:110-139 | inputs that pass the runtime's checks are accepted by the engine if and only if a condition checkable before the call holds (for ALL_GATHER: at most one rank) |
| `RuntimeLaws.AllGatherNeverCommits` | src/runtime.cpp:110-131 | in no reachable state has an ALL_GATHER over two or more ranks outputs or a measurement: the runtime asks for aggregate-sized inputs, which the engine refuses |
| `RuntimeLaws.ExecuteSucceedsIff` | src/runtime.cpp:115-197 | an undisturbed `execute_collective` on a DISPATCHED execution ends SUCCEEDED with the engine's outputs if and only if, kind by kind, the inputs number and measure what is asked for in plain arithmetic, else FAILED; the call throws after succeeding exactly when no collective is counted active |
| `RuntimeLaws.InputsOkExactly` | src/runtime.cpp:110-130 | the runtime asks for one input a rank, each of one rank's payload, or of as many payloads as ranks for ALL_GATHER and REDUCE_SCATTER, and the size must fit in 64 bits |
| `RuntimeEffects.ExecuteRefused` | src/runtime.cpp:115-160 | a call on an execution that is not DISPATCHED, or without its group or acceptable inputs, fails it; an unknown execution is left alone |
| `RuntimeLaws.ConcludeEffect` | src/runtime.cpp:152-197 | whatever happened while the engine ran, its outputs are stored and measured as a success, and the lifecycle moves to SUCCEEDED exactly from RUNNING or COMPLETING: a late completion never resurrects a settled collective |
| `RuntimeLaws.RivalFailsTheRun` | src/runtime.cpp:134-160 | a second `execute_collective` on a RUNNING execution is refused, its refusal fails the execution under the first call, and the first call's outputs and success measurement are stored all the same |
| `RuntimeLaws.LostReportsStayLost` | src/runtime.cpp:199-209 | once every member's rank is recorded, in every continuation of the run a member's report answers Conflict and changes nothing, and an execution that has not succeeded does so only by a commit or by the report of a rank that belongs to no member |
| `RuntimeLaws.SucceedsBy` | src/runtime.cpp:199-209 | in a reachable state a step takes an execution to SUCCEEDED if and only if it is the commit of its engaged call or a report, by any rank whatever, after which every member's rank is recorded |
| `RuntimeLaws.ForeignReportSettles` | src/runtime.cpp:199-209 | the report of an unrecorded rank, member or not, settles an execution stuck with a full quorum |
| `RuntimeLaws.CompletionsHaveOneCause` | src/runtime.cpp:199-209 | in any run at most one report of a rank is recorded, however many race, and every recorded completion of an execution without a commit comes from one |
| `RuntimeLaws.ActiveIsOpenedMinusClosed` | include/collectivefabric/accounting.hpp:16-27 | in any run the active counter is the opening calls that returned minus the closing calls that returned, bookings from outside included |
| `RuntimeDrain.StepDrain` | include/collectivefabric/accounting.hpp:16-27 | a step without outside bookings keeps the active counter equal to the number of executions that are reserved, not committed and not ABORTED if and only if it closes nothing unopened and nothing twice |
| `RuntimeDrain.CountsHeldIffDisciplined` | include/collectivefabric/accounting.hpp:16-27 | in a run without outside bookings that equality holds at every moment if and only if every step is of that kind |
| `RuntimeDrain.DrainedIff` | include/collectivefabric/accounting.hpp:2-4 | such a run has drained to zero if and only if every execution whose reserve returned is committed or ABORTED; failing, cancelling and success by reports leave it counted |
| `RuntimeWitnesses.FailedStaysCounted` | src/runtime.cpp:211-220 | a run after which the only collective is FAILED and the active counter is 1 |
| `RuntimeWitnesses.AbortUncountsAnother` | src/runtime.cpp:222-227 | a run in which aborting a collective that was never started brings the counter to zero while another one is dispatched |
| `RuntimeWitnesses.AbortThenCommit` | src/runtime.cpp:152-197 | a run in which a collective aborted while its engine runs is then committed, closes its one start twice and brings the counter to zero while another one is reserved |
| `RuntimeWitnesses.SuccessThrows` | src/runtime.cpp:191-195 | a run in which `execute_collective` succeeds, stores its outputs and measurement, and throws |
| `RuntimeWitnesses.RivalFailsARun` | src/runtime.cpp:134-160 | a run in which a second call fails a collective whose first call then stores outputs and a success measurement |
| `RuntimeWitnesses.ReportsLost` | src/runtime.cpp:199-209 | a run in which both members' reports throw and leave the collective RUNNING with a full quorum |
| `RuntimeWitnesses.ForeignRankSettles` | src/runtime.cpp:199-209 | from there the report of rank 99 of a pair takes it to SUCCEEDED |
| `RuntimeWitnesses.SucceededWithoutOutputs` | src/runtime.cpp:199-209 | a run in which reports alone take a collective to SUCCEEDED before it has outputs |
| `RuntimeWitnesses.AllGatherFails` | src/runtime.cpp:110-131 | a run in which a two-rank ALL_GATHER with accepted inputs ends FAILED |
| `RuntimeWitnesses.PlannersAnswer` | src/runtime.cpp:80-89 | the planning answers in these runs are the ones the planner gives |
| `RuntimeLaws.ValidExactly` | include/collectivefabric/collective/descriptor.hpp:94-124 | a descriptor passes validation exactly when its reduction fits its kind, its payload is non-empty and fits in 64 bits unless it is a barrier, and it has a root where one is needed; it is refused as an overflow exactly when only the size is at fault first, and else as invalid |
| `RuntimeLaws.ReservationsStay` | src/runtime.cpp:91-100 | the runtime never releases a reservation: it stays outstanding in every continuation without an outside release of its id |
| `RuntimeEffects.RegisterExactly` | src/runtime.cpp:38-44 | the new state and answer of `register_group` |
| `RuntimeEffects.CreateExactly` | src/runtime.cpp:61-78 | when creating is refused and with which error, and otherwise the new execution under two fresh ids |
| `RuntimeEffects.PlanExactly` | src/runtime.cpp:80-89 | planning starts from CREATED alone, and its move stands when the planner refuses |
| `RuntimeEffects.PlanStores` | src/runtime.cpp:80-89 | which refusal planning answers, or which algorithm, backend, steps and bytes it stores, from the descriptor, the group's size and what was measured, in plain arithmetic |
| `RuntimeEffects.ReserveExactly` | src/runtime.cpp:91-100 | reserving starts from PLANNED alone and books one rank's payload under a fresh id and one start, or keeps the part done before a throw |
| `RuntimeEffects.DispatchExactly` | src/runtime.cpp:102-108 | dispatching starts from RESERVED alone |
| `RuntimeEffects.StartExactly` | src/runtime.cpp:125-138 | a call starts from DISPATCHED alone, with a group and acceptable inputs |
| `RuntimeEffects.ReportExactly` | src/runtime.cpp:199-209 | a report records its rank even when it throws, answers each refusal on its own condition, and moves the lifecycle only when counted |
| `RuntimeEffects.QuorumExactly` | src/runtime.cpp:317-329 | a missing group fails an unsettled execution; otherwise only a COMPLETING one with every member's rank moves |
| `RuntimeEffects.FailExactly` | src/runtime.cpp:211-220 | failing twice is failing once; otherwise from the six unsettled states, with the given failure and one rank's payload counted |
| `RuntimeEffects.AbortExactly` | src/runtime.cpp:222-227 | aborting moves from CREATED, DISPATCHED, RUNNING and COMPLETING, and throws after the move exactly when nothing is counted active |
| `RuntimeEffects.CancelExactly` | src/runtime.cpp:229-233 | cancelling moves from CREATED to RUNNING and from nowhere else |
| `RuntimeEffects.RetireExactly` | src/runtime.cpp:235-239 | retiring moves from SUCCEEDED and FAILED alone |
| `RuntimeEffects.CommitExactly` | src/runtime.cpp:161-196 | everything a commit stores, measures and books |
| `RuntimeEffects.FailureExactly` | src/runtime.cpp:140-160 | the failure an unsuccessful call records and books |
| `Runtime.Runtime.AddGroup` | src/runtime.cpp:38-44 | `register_group`: refuses a registered generation, otherwise adds it; nothing else changes |
| `Runtime.Runtime.CreateCollective` | src/runtime.cpp:61-78 | `create_collective`: null or unknown group, invalid descriptor, or a new CREATED execution under the next id |
| `Runtime.Runtime.PlanCollective` | src/runtime.cpp:80-89 | `plan_collective`: the planner is asked about the execution's own descriptor, its choice is stored, and the move to PLANNED stands even when it throws |
| `Runtime.Runtime.ReserveCollective` | src/runtime.cpp:91-100 | `reserve_collective`: the guarded move, then the size, the reservation and the start, keeping what was done before a throw |
| `Runtime.Runtime.DispatchCollective` | src/runtime.cpp:102-108 | `dispatch_collective`: the guarded move and a fresh dispatch id |
| `Runtime.Runtime.ReportRank` | src/runtime.cpp:199-209 | `complete_rank` against its section function: duplicate check, record, accounting, swallowed move, quorum, in that order |
| `Runtime.Runtime.FailCollective` | src/runtime.cpp:211-220 | `fail_collective`: nothing on FAILED, otherwise the move, the failure record and the failed bytes, whose computation may throw |
| `Runtime.Runtime.AbortCollective` | src/runtime.cpp:222-227 | `abort_collective`: the execution is ABORTED even when the accounting then throws |
| `Runtime.Runtime.ApplyQuorum` | src/runtime.cpp:317-329 | `apply_quorum_unlocked`: the counting loop settles the execution exactly when every participant's rank is recorded and it is COMPLETING |
| `Runtime.Runtime.CheckInputs` | src/runtime.cpp:127-130 | the size loop answers exactly whether there are enough inputs, all of the size the runtime asks for |
| `Runtime.Runtime.StoreOutputs` | src/runtime.cpp:161-164 | the first half of the commit, with its per-rank loop |
| `Runtime.Runtime.Measure` | src/runtime.cpp:165-196 | the second half of the commit: measurement, then accounting that may throw |
| `Runtime.Runtime.Execute` | src/runtime.cpp:115-197 | a whole `execute_collective` with nothing in between equals the composition of its sections |
| `Lifecycle.StateMachine.TransitionTo` | include/collectivefabric/lifecycle.hpp:29-38 | a move is made exactly when the table allows it; a refusal changes nothing |
| `Lifecycle.PathBounded` | include/collectivefabric/lifecycle.hpp:44-74 | no sequence of allowed moves is longer than seven or than the height of its start |
| `Lifecycle.LongestPath` | include/collectivefabric/lifecycle.hpp:44-74 | the bound of seven moves is met |
| `Lifecycle.LaterIsReachable` | include/collectivefabric/lifecycle.hpp:44-74 | the order used for runs is exactly reachability by allowed moves |
| `Accounting.Accounting.CollectiveCompleted` | include/collectivefabric/accounting.hpp:17-21 | throws at zero, otherwise lowers the active counter |
| `Accounting.Accounting.CollectiveAborted` | include/collectivefabric/accounting.hpp:22-27 | throws at zero, otherwise lowers the active and raises the aborted counter |
| `Accounting.Accounting.RankContributionComplete` | include/collectivefabric/accounting.hpp:29-33 | throws at zero, otherwise lowers the contribution counter |
| `Accounting.Accounting.ReserveBytes` | include/collectivefabric/accounting.hpp:37-42 | a duplicate id throws, otherwise the reservation is entered and added with 64-bit wrap |
| `Accounting.Accounting.ReleaseBytes` | include/collectivefabric/accounting.hpp:44-51 | an unknown id or an underflow throws, otherwise the reservation is removed and subtracted |
| `Accounting.LedgerBalanced` | include/collectivefabric/accounting.hpp:35-51 | after any sequence of calls the reserved bytes are the outstanding reservations' total modulo 2^64 |
| `Accounting.TeardownClosesToZero` | include/collectivefabric/accounting.hpp:2-4 | releasing every outstanding reservation once, in any order, succeeds each time if and only if their total fits in 64 bits, and then closes the reserved bytes to zero |
| `Accounting.WrappedReleaseRefused` | include/collectivefabric/accounting.hpp:37-51 | two reservations of 2^63 bytes wrap the counter, after which releasing an outstanding one is refused |
| `Accounting.ActiveIsOpen` | include/collectivefabric/accounting.hpp:16-28 | after any sequence of calls the active counter is the starts minus the completions and aborts that returned |
| `Accounting.CountersAddUp` | include/collectivefabric/accounting.hpp:16-59 | after any sequence of calls each counter is the sum of its own entries modulo 2^64, the open contributions are those started and not completed, and the table holds exactly what was reserved and not released |
| `Accounting.AnswerExactly` | include/collectivefabric/accounting.hpp:16-51 | when each call throws, and that a call that throws changes nothing |
| `Recovery.RestartKeepsGroups` | tools/coordinator.cpp:334-344 | save a state that persists built groups, load the file in a fresh process and rebuild: exactly those groups are registered, ranks included |
| `Recovery.RebuildsItself` | tools/coordinator.cpp:334-344 | a built group is rebuildable from its persisted form, and only into itself |
| `Recovery.RebuildRuntime` | tools/coordinator.cpp:334-344 | the rebuilding loop succeeds exactly when every persisted group is buildable and every key is new and distinct, and then registers one rebuilt group for each and nothing else |
| `Recovery.RebuiltParticipants` | tools/coordinator.cpp:336-342 | every persisted participant comes back known, at the rank that counts the smaller ids, and otherwise as persisted |
| `Recovery.PersistedFields` | tools/coordinator.cpp:200-229 | every field of a group and its participants is persisted as it is |
| `Recovery.CurrentAreFresh` | tools/coordinator.cpp:362-364 | the count is the number of measurements marked CURRENT |
| `Recovery.Recover` | tools/coordinator.cpp:346-364 | loading, a check for groups, the restored epoch with no live incarnation, rebuilding in a fresh runtime, and the count of current measurements |
| `Group.GroupBuilder.Build` | include/collectivefabric/group.hpp:131-148 | succeeds exactly on buildable participant lists; then the members are a permutation of those added, strictly sorted by id, with rank i at position i |
| `Group.GroupBuilder.Validate` | include/collectivefabric/group.hpp:151-170 | the nested validation loops decide exactly the stated validity |
| `Group.GroupBuilder.AssignRanks` | include/collectivefabric/group.hpp:133-138 | sorting and ranking keeps the participants and ranks them densely in id order |
| `Group.SortedUnique` | include/collectivefabric/group.hpp:136-137 | ids in increasing order determine the order of a permutation completely |
| `Group.RankCountsSmallerIds` | include/collectivefabric/group.hpp:133-138 | a participant's rank is the number of participants with a smaller id, and nothing else about a participant changes |
| `Group.BuildableExactly` | include/collectivefabric/group.hpp:151-170 | what a build accepts, condition by condition |
| `Group.InsertionOrderIrrelevant` | include/collectivefabric/group.hpp:131-148 | permuted participant lists are accepted alike and give the same membership and ranks |
| `Group.RebuildReproduces` | include/collectivefabric/group.hpp:131-148 | rebuilding from a built group's own participants is accepted and reproduces membership and ranks |
| `Group.ExplicitRanksKept` | include/collectivefabric/group.hpp:123-142 | explicit ranks survive a build if and only if they are below the number of participants and in the order of the ids |
| `Group.ExplicitRanksOverridden` | include/collectivefabric/group.hpp:123-142 | two participants whose explicit ranks a build turns round |
| `Group.LookupsInvert` | include/collectivefabric/group.hpp:52-64 | on a built group the rank lookup finds exactly ranks 0 to n - 1, `rank_of` inverts it and knows exactly the participants |
| `Authority.LiveExactly` | include/collectivefabric/authority.hpp:46-112 | each of the six verdicts on its own condition: live (CURRENT, FRESH, DUPLICATE) exactly when the incarnation is acceptable, the epoch is the current one and no generation lags; STALE on a foreign incarnation, an older epoch or a lagging generation; UNKNOWN ahead of the epoch; INVALID when no incarnation is named or live |
| `Authority.StaleForever` | include/collectivefabric/authority.hpp:46-112 | over any run with an unchanging live incarnation, or none, and non-decreasing epoch and generations, a STALE claim stays STALE |
| `Authority.LiveIsAnInterval` | include/collectivefabric/authority.hpp:46-112 | over such runs the moments at which a claim is live form an interval: it is never live again after it stopped being live |
| `Authority.AdvanceFences` | src/runtime.cpp:297-300 | `advance_epoch` fences every claim of an older epoch for good if and only if the epoch was below UINT64_MAX |
| `Authority.AdvanceCounts` | include/collectivefabric/foundation/generation.hpp:26-30 | any number of advances adds exactly that number and saturates at UINT64_MAX |
| `Foundation.CheckedMul` | include/collectivefabric/foundation/checked.hpp:11-15 | the quotient test refuses exactly the products that do not fit in 64 bits |
| `Foundation.NextGeneration` | include/collectivefabric/foundation/generation.hpp:26-30 | exactly one more, and the maximum stays |
| `ReferenceEngine.DoReduce` | include/collectivefabric/reference/engine.hpp:178-189 | the nested in-place loops leave in every element the left fold, in rank order, of that element over all ranks |
| `ReferenceEngine.FoldRow` | include/collectivefabric/reference/engine.hpp:187-187 | the inner loop combines every element with the source element and changes no other |
| `ReferenceEngine.ReduceInto` | include/collectivefabric/reference/engine.hpp:133-144 | BYTE is refused; otherwise the bytes of the element-wise left folds are written |
| `ReferenceEngine.Execute` | include/collectivefabric/reference/engine.hpp:32-56 | all six collectives, with every size, overflow and datatype refusal, against their value-level definition |
| `ReferenceEngine.BroadcastFrom` | include/collectivefabric/reference/engine.hpp:63-74 | every rank gets the root's buffer, or the root index or size is refused |
| `ReferenceEngine.ReduceTo` | include/collectivefabric/reference/engine.hpp:76-83 | the root alone gets the reduction |
| `ReferenceEngine.AllReduceOf` | include/collectivefabric/reference/engine.hpp:85-92 | every rank gets the reduction |
| `ReferenceEngine.Gather` | include/collectivefabric/reference/engine.hpp:94-103 | every rank gets all contributions in rank order, or a rank of the wrong size is refused; the loop checks one rank at a time and copies from all |
| `ReferenceEngine.CopyAll` | include/collectivefabric/reference/engine.hpp:100-101 | the inner loop appends the same number of bytes from every rank |
| `ReferenceEngine.Scatter` | include/collectivefabric/reference/engine.hpp:105-124 | rank b gets the reduction of everyone's block b, taken at byte offset b times the block size; the first rank of the wrong size is refused, even when later ones are missing |
| `EngineLaws.AllReduceIsReduceThenBroadcast` | include/collectivefabric/reference/engine.hpp:63-92 | `all_reduce` equals `reduce` to any root followed by `broadcast` from it, refusals included |
| `EngineLaws.ScatterThenGatherIsAllReduce` | include/collectivefabric/reference/engine.hpp:85-124 | `reduce_scatter` then `all_gather` of its outputs gives every rank the bytes of `all_reduce` on the whole buffers, for any operation |
| `EngineLaws.ScatteredConcat` | include/collectivefabric/reference/engine.hpp:105-124 | block-wise reduction concatenated is reduction of the whole buffers |
| `EngineLaws.AllReducePermuted` | include/collectivefabric/reference/engine.hpp:85-92 | for wrapping unsigned SUM and PRODUCT and integer MIN and MAX the result does not depend on the order of the ranks |
| `EngineLaws.CombinerOrderFree` | include/collectivefabric/reference/engine.hpp:146-175 | those operations are closed, commutative and associative on bit patterns, signed reading and wrap-around included |
| `EngineLaws.SignedMeaning` | include/collectivefabric/reference/engine.hpp:146-157 | on signed elements the resulting bit pattern, read as two's complement, is the sum or product when that is in range, and the minimum or maximum |
| `EngineMeaning.UnsignedMeaning` | include/collectivefabric/reference/engine.hpp:150-153 | on unsigned elements minimum and maximum are those of the numbers, sum and product those modulo 2^32, and without an operation the later operand stays |
| `EngineMeaning.TwosComplement` | include/collectivefabric/reference/engine.hpp:146-161 | signed elements are read as the one number of the signed range congruent to the pattern |
| `EngineMeaning.ExtremeMeaning` | include/collectivefabric/reference/engine.hpp:146-161 | on every integer type the minimum and maximum are those of the numbers |
| `EngineMeaning.PlatformMeaning` | include/collectivefabric/reference/engine.hpp:146-169 | floating-point operations, and signed results out of range, are the platform's |
| `EngineMeaning.LittleEndian` | include/collectivefabric/reference/engine.hpp:181-188 | byte i of an element is its i-th digit to the base 256 |
| `EngineMeaning.WordStartsAt` | include/collectivefabric/reference/engine.hpp:181-188 | element i of a buffer starts at byte i times the width |
| `EngineMeaning.WordsOfBytes` | include/collectivefabric/reference/engine.hpp:181-188 | elements written to a buffer read back as themselves |
| `EngineMeaning.FoldAccumulates` | include/collectivefabric/reference/engine.hpp:184-188 | the fold is the accumulator after the last rank, with the accumulator as the left operand throughout |
| `EngineMeaning.FoldExtreme` | include/collectivefabric/reference/engine.hpp:178-189 | folded minima and maxima are the least and the greatest of the ranks' numbers |
| `EngineMeaning.FoldWraps` | include/collectivefabric/reference/engine.hpp:178-189 | folded unsigned sums and products are those of the ranks' numbers modulo 2^32 |
| `EngineMeaning.FoldSignedSum` | include/collectivefabric/reference/engine.hpp:178-189 | a signed sum none of whose partial sums overflows is the sum of the numbers |
| `EngineMeaning.TakenExactly` | include/collectivefabric/reference/engine.hpp:32-130 | which calls the engine refuses, as an overflow or as invalid, and which it takes, kind by kind |
| `EngineMeaning.EveryRankReceives` | include/collectivefabric/reference/engine.hpp:59-124 | what every rank holds after each kind of collective, byte by byte or element by element |
| `EngineMeaning.AllReduceNumbers` | include/collectivefabric/reference/engine.hpp:85-92 | every element of every all-reduce output: least, greatest, wrapped sum or product of the ranks' elements, their exact sum while it fits, and for any operation the rank-ordered accumulator |
| `Protocol.Encode` | src/protocol.cpp:25-40 | the pushes produce exactly magic, version, kind, length, checksum and payload |
| `Protocol.Decode` | src/protocol.cpp:42-69 | the verdict of the branch sequence, its reason and the bytes consumed |
| `Protocol.FrameDecoder.Next` | src/protocol.cpp:75-82 | the verdict on the buffer; exactly the consumed bytes are erased, and only on FRAME |
| `Protocol.RoundTrip` | src/protocol.cpp:25-69 | decoding an encoding followed by anything returns the frame and consumes exactly its bytes |
| `Protocol.DecodedExactly` | src/protocol.cpp:42-69 | the verdict on every input in terms of its bytes: too short, each of the four header rejections in their order, an incomplete frame, a wrong checksum, or the frame |
| `Protocol.WaitsIff` | src/protocol.cpp:44-57 | with sixteen bytes there, the decoder waits if and only if they are the header of an acceptable frame of which not all bytes are there |
| `Protocol.HeaderOnTheWire` | src/protocol.cpp:25-31 | the magic, version, kind number and length every frame starts with |
| `Protocol.GotIffEncodedPrefix` | src/protocol.cpp:42-69 | a frame is returned if and only if it is acceptable and the input starts with its encoding |
| `Protocol.Canonical` | src/protocol.cpp:42-69 | the bytes consumed by any FRAME verdict are the encoding of the frame returned |
| `Protocol.VerdictStable` | src/protocol.cpp:42-69 | FRAME and REJECT persist under every extension of the input |
| `Protocol.ProperPrefixNeedsMore` | src/protocol.cpp:42-57 | every proper prefix of a valid encoding gives NEED_MORE |
| `Protocol.BurstRejected` | src/protocol.cpp:58-62 | replacing up to four consecutive payload bytes by different ones is always rejected as a checksum mismatch, for every payload length |
| `Protocol.BytesConserved` | src/protocol.cpp:71-82 | for any bytes, any chunking and any interleaving of feed and next: encodings of the frames returned, followed by the buffer, are the bytes fed |
| `Protocol.StreamSafe` | src/protocol.cpp:71-82 | on a stream of valid frames, however cut, the frames returned are a prefix of those sent and nothing is ever rejected |
| `Protocol.StreamComplete` | src/protocol.cpp:71-82 | once all bytes are fed, as many nexts as frames return all of them in order and leave an empty buffer |
| `Protocol.RejectIsFinal` | src/protocol.cpp:71-82 | once a REJECT is due, no continuation of feeds and nexts returns another frame, and every later next answers that same REJECT |
| `Crc32.TableEntry` | include/collectivefabric/digest/crc32.hpp:39-40 | eight shift-and-divide steps |
| `Crc32.MakeTable` | include/collectivefabric/digest/crc32.hpp:36-44 | every one of the 256 entries is the eight-step division of its index |
| `Crc32.TableStep` | include/collectivefabric/digest/crc32.hpp:17-17 | one table lookup does the work of eight bit steps |
| `Crc32.Crc.Update` | include/collectivefabric/digest/crc32.hpp:15-18 | the table-driven loop equals the bit-by-bit register over the bytes |
| `Crc32.Crc.Compute` | include/collectivefabric/digest/crc32.hpp:23-27 | initial value, update and final complement give the checksum |
| `Crc32.FeedDivides` | include/collectivefabric/digest/crc32.hpp:15-18 | feeding bytes is bit-serial reflected division by 0xEDB88320 of the message's bits |
| `Crc32.ChecksumDivides` | include/collectivefabric/digest/crc32.hpp:15-27 | the checksum is the complement of dividing the message's bits, lowest first, in a register that starts as all ones |
| `Crc32.BitStepBits` | include/collectivefabric/digest/crc32.hpp:40-40 | one step moves every bit down and adds the polynomial when a bit leaves |
| `Crc32.PolynomialIsReflected` | include/collectivefabric/digest/crc32.hpp:40-40 | the constant is the IEEE 802.3 polynomial with its bits reversed |
| `Crc32.FeedInjective` | include/collectivefabric/digest/crc32.hpp:15-18 | distinct registers stay distinct whatever is fed |
| `Crc32.BurstChangesFeed` | include/collectivefabric/digest/crc32.hpp:15-18 | replacing at most four consecutive bytes by different ones always changes the register, at every position and length |
| `Sha256.Hasher.Update` | include/collectivefabric/digest/sha256.hpp:28-37 | the block-buffered loop absorbs exactly the given bytes, whatever the buffer fill |
| `Sha256.Hasher.Finish` | include/collectivefabric/digest/sha256.hpp:39-58 | below 2^61 bytes the digest is the FIPS 180-4 hash of everything fed, in however many pieces |
| `Sha256.Hasher.PadWithZeros` | include/collectivefabric/digest/sha256.hpp:44-44 | the padding loop terminates from every buffer fill after exactly the number of zeros section 5.1.1 of FIPS 180-4 asks for |
| `Sha256.Hasher.Transform` | include/collectivefabric/digest/sha256.hpp:93-118 | one block through the schedule and the 64 rounds is the compression function of section 6.2.2 of FIPS 180-4 |
| `Sha256.Hasher.Schedule` | include/collectivefabric/digest/sha256.hpp:94-103 | the array of 64 words is the message schedule |
| `Sha256.Hasher.RunRounds` | include/collectivefabric/digest/sha256.hpp:104-115 | the loop with its temporaries is the round recurrence |
| `Sha256.Hasher.Digest` | include/collectivefabric/digest/sha256.hpp:60-64 | one update and finish is the hash of the data |
| `Sha256.AbsorbConcat` | include/collectivefabric/digest/sha256.hpp:28-37 | absorbing whole blocks and then the rest is absorbing the concatenation |
| `Sha256Meaning.RoundConstantsAreCubeRoots` | include/collectivefabric/digest/sha256.hpp:80-89 | the sixty-four constants are the first thirty-two fractional bits of the cube roots of the first sixty-four primes |
| `Sha256Meaning.InitialIsSquareRoots` | include/collectivefabric/digest/sha256.hpp:20-23 | the initial value comes from the square roots of the first eight primes |
| `Sha256Meaning.ChChooses` | include/collectivefabric/digest/sha256.hpp:108-108 | Ch chooses bit by bit |
| `Sha256Meaning.MajDecides` | include/collectivefabric/digest/sha256.hpp:111-111 | Maj is the majority |
| `Sha256Meaning.BigSigma0Rotates` | include/collectivefabric/digest/sha256.hpp:110-110 | the rotations by 2, 13 and 22 |
| `Sha256Meaning.BigSigma1Rotates` | include/collectivefabric/digest/sha256.hpp:107-107 | the rotations by 6, 11 and 25 |
| `Sha256Meaning.SmallSigma0Rotates` | include/collectivefabric/digest/sha256.hpp:100-100 | the rotations by 7 and 18 and the shift by 3 |
| `Sha256Meaning.SmallSigma1Rotates` | include/collectivefabric/digest/sha256.hpp:101-101 | the rotations by 17 and 19 and the shift by 10 |
| `Sha256Meaning.WordOfBytes` | include/collectivefabric/digest/sha256.hpp:51-56 | words are big-endian in blocks and in the digest |
| `Sha256Meaning.ScheduleExactly` | include/collectivefabric/digest/sha256.hpp:94-103 | the recurrence of the message schedule |
| `Sha256Meaning.RoundExactly` | include/collectivefabric/digest/sha256.hpp:104-115 | the two temporaries and the shift of the eight variables |
| `Sha256Meaning.CompressExactly` | include/collectivefabric/digest/sha256.hpp:116-117 | the words added at the end, and the digest's order |
| `Sha256Meaning.PaddedExactly` | include/collectivefabric/digest/sha256.hpp:39-49 | the message, 0x80, the fewest zeros and the bit length in eight bytes |
| `Sha256Meaning.PaddingInjective` | include/collectivefabric/digest/sha256.hpp:39-49 | different messages are padded differently |
| `Canonical.CanonicalWriter.U64` | include/collectivefabric/digest/canonical.hpp:56-58 | appends the eight big-endian bytes |
| `Canonical.CanonicalWriter.String` | include/collectivefabric/digest/canonical.hpp:40-46 | appends the length and the bytes |
| `Canonical.CanonicalReader.U64` | include/collectivefabric/digest/canonical.hpp:103-109 | reads exactly eight bytes or leaves the position |
| `Canonical.CanonicalReader.Boolean` | include/collectivefabric/digest/canonical.hpp:82-82 | any non-zero byte is true |
| `Canonical.CanonicalReader.String` | include/collectivefabric/digest/canonical.hpp:86-99 | reads the prefix and the bytes, or refuses a length beyond the input |
| `StoreCodec.Encode` | src/store.cpp:50-69 | the writer loops produce the specified encoding |
| `StoreCodec.Decode` | src/store.cpp:71-194 | the reader loops with their seen-sets accept and refuse exactly as the specified parser does |
| `StoreLaws.RoundTrip` | src/store.cpp:50-194 | every well-formed state is returned unchanged by decode after encode |
| `StoreLaws.AcceptedIsWellFormed` | src/store.cpp:71-194 | whatever is accepted has a supported version, bounded counts, valid enumerations and unique groups, participants, ranks and measurements |
| `StoreLaws.CanonicalIffStrict` | src/store.cpp:71-194 | an accepted payload re-encodes to itself if and only if it is also accepted with every boolean byte required to be 0 or 1 |
| `StoreLaws.LooseBooleanAccepted` | include/collectivefabric/digest/canonical.hpp:82-82 | a payload with a presence byte of 2 is accepted and re-encodes differently |
| `StoreLaws.EncodingInjective` | src/store.cpp:50-69 | distinct well-formed states have distinct encodings |
| `StoreLaws.ExtensionRefused` | src/store.cpp:192-192 | every proper extension of an accepted payload is refused as trailing garbage |
| `StoreLaws.PrefixRefused` | src/store.cpp:71-194 | every proper prefix of an accepted payload is refused |
| `StoreFaults.PrefixIsShort` | src/store.cpp:71-194 | and refused as truncated or for a count cut off, never as a bad enumeration, a repetition or another version |
| `StoreFaults.DecodeOfEncode` | src/store.cpp:50-194 | every state at all: decoding its encoding gives it back exactly when it is well-formed, and otherwise refuses it for its first fault in reading order |
| `StoreLayout.StateLayout` | src/store.cpp:50-69 | where each part of an encoded state lies: numbers big-endian, counts before lists, the health record and the two numbers at the end |
| `StoreLayout.GroupLayout` | src/store.cpp:28-38 | where each field of a group and each participant lies |
| `StoreLayout.ParticipantLayout` | src/store.cpp:34-37 | the fifty-seven bytes of a participant |
| `StoreLayout.MeasurementLayout` | src/store.cpp:40-46 | the eighty-four bytes of a measurement |
| `StoreLayout.HealthLayout` | src/store.cpp:59-63 | the bytes of a health record |
| `StoreLayout.BackendLayout` | src/store.cpp:65-65 | the bytes of a backend |
| `StoreFile.Save` | src/store.cpp:201-233 | the bytes written, magic, version, length, checksum and the encoding, and the digest of the encoding |
| `StoreFile.Load` | src/store.cpp:235-260 | the checks in order, each with its refusal, then decode, and the digest of the payload |
| `StoreFile.SaveThenLoad` | src/store.cpp:201-260 | loading what was saved gives the state back |
| `StoreFile.LoadedIff` | src/store.cpp:235-260 | a file is loaded if and only if it is a header of version 0 or 1 around an acceptable payload |
| `StoreFile.OpenedExactly` | src/store.cpp:235-260 | what loading answers on every file in terms of its bytes, each refusal in its order |
| `StoreFile.ResizedRefused` | src/store.cpp:249-251 | a saved file cut short or extended is never loaded |
| `StoreFile.BurstNoticed` | src/store.cpp:252-256 | replacing up to four consecutive payload bytes is always refused as a checksum mismatch |
| `Planner.CeilLog2` | src/planner.cpp:13-18 | the shift loop returns the logarithm, and ends for every n up to 2^63 |
| `Planner.HalvingsIsCeilLog2` | src/planner.cpp:13-18 | that number is the exponent of the least power of two that reaches n |
| `Planner.SatMul` | src/planner.cpp:29-32 | the product, or UINT64_MAX when it does not fit |
| `Planner.ModelPath` | src/planner.cpp:34-72 | the steps and byte movement of each algorithm |
| `PlannerCosts.CostsExactly` | src/planner.cpp:34-72 | the steps and bytes of every algorithm, kind, rank count and payload in plain arithmetic, capped at 64 bits, with the exponent of the least power of two that reaches the rank count |
| `PlannerCosts.PayloadExactly` | src/planner.cpp:122-126 | the payload charged for, and exactly when it overflows |
| `PlannerCosts.DoersExactly` | src/planner.cpp:74-96 | the algorithms that can do each kind |
| `PlannerCosts.FirstReason` | src/planner.cpp:137-161 | an algorithm is rejected for the first reason, in order, that speaks against it, and accepted only if none does |
| `Planner.Candidates` | src/planner.cpp:119-170 | no candidates without an input; otherwise all eight algorithms in order, each with its feasibility, first rejection reason and costs |
| `Planner.Plan` | src/planner.cpp:172-241 | refuses a missing input, an overflowing payload and a request nothing is feasible for; otherwise returns the choice all others lose to, or with measurements one within the tolerance of the fastest, with its costs |
| `PlannerLaws.ChoiceUnique` | src/planner.cpp:199-230 | the lexicographic order leaves exactly one choice |
| `PlannerLaws.SelectionClosedForm` | src/planner.cpp:34-230 | with nothing measured and an accepting backend the selection is a closed form of kind and rank count, for every rank count, payload and topology |
| `PlannerLaws.LogBelowRing` | src/planner.cpp:42-49 | from ten ranks on, twice the logarithm is below the ring's steps |
| `PlannerLaws.NeverDelegates` | src/planner.cpp:223-232 | BACKEND_DEFAULT is never selected, with or without measurements, and the planner refuses exactly the requests the backend does not accept |
| `PlannerLaws.ClosedFormIsChoice` | src/planner.cpp:199-222 | and the closed form is a choice, so with nothing measured it is the selection |
| `PlannerLaws.MeasuredChoiceUnique` | src/planner.cpp:199-230 | with separated estimates there is only one choice |
| `PlannerLaws.LatencyChangesNothing` | src/planner.cpp:184-197 | measuring latency but no bandwidth never changes the selection: the same closed form holds |
| `PlannerLaws.BandwidthSelectsLightest` | src/planner.cpp:184-222 | measuring bandwidth but no latency, the selection is exactly the feasible algorithm that moves the fewest bytes, then takes the fewest steps, then has the smallest code; two byte counts are never blurred by the tolerance |
| `PlannerCosts.BandwidthClosedForm` | src/planner.cpp:184-222 | for every rank count and every payload that does not overflow the movements: ALL_REDUCE and ALL_GATHER go by RING up to six ranks and RECURSIVE_DOUBLING from seven on, BROADCAST and REDUCE by RING, DIRECT and from four ranks on TREE, REDUCE_SCATTER by RING up to seven and at nine, else TREE, BARRIER by TREE |
| `PlannerCosts.BothSelectCheapest` | src/planner.cpp:184-222 | measuring both, below 10^12 bytes a second, the selection is exactly the feasible algorithm of least movement * 10^9 + steps * latency * bandwidth, then steps, bytes and code |
| `PlannerCosts.CostsBlur` | src/planner.cpp:205-213 | which differences the tolerance blurs and which it does not |
| `PlannerCosts.FastestLoses` | src/planner.cpp:199-222 | a request whose fastest estimate is blurred and loses to fewer steps |
| `PlannerCosts.ScanFinds` | src/planner.cpp:199-222 | the scan ends with any candidate that is preferred to every other and to which none is preferred |
| `Topology.Topology.AddNode` | include/collectivefabric/topology.hpp:69-73 | a fresh id and an empty device list; all tables stay consistent |
| `Topology.Topology.AddDevice` | include/collectivefabric/topology.hpp:74-81 | an unknown node is refused; otherwise the device table and that node's list grow together and all tables stay consistent |
| `Topology.Topology.AddLink` | include/collectivefabric/topology.hpp:82-91 | accepted exactly when both nodes and both devices exist; the link is stamped with the topology's generation |
| `Topology.Topology.IntraNodeDevicePairs` | include/collectivefabric/topology.hpp:148-155 | the per-node sum is the number of unordered device pairs on the same node |
| `Topology.PairSumCounts` | include/collectivefabric/topology.hpp:148-155 | with consistent tables the sum over nodes counts the same-node pairs |
| `Topology.Topology.LocalityBetween` | include/collectivefabric/topology.hpp:129-140 | one node gives INTRA_PROCESS, otherwise the most local class among the connecting links, or none |
| `Topology.Topology.LinkBetween` | include/collectivefabric/topology.hpp:117-126 | the first connecting link alone is asked, measured before nominal |
| `Topology.BestKnownIff` | include/collectivefabric/topology.hpp:116-126 | the best known capability is returned if and only if no later connecting link outdoes the first one |
| `Topology.NoLinkNoOffer` | include/collectivefabric/topology.hpp:116-126 | and without a connecting link the answer is none |
| `Topology.LocalityIsPosition` | include/collectivefabric/topology.hpp:198-210 | the link classes from most to least local |
| `Topology.OfferSymmetric` | include/collectivefabric/topology.hpp:117-126 | links have no direction |
| `Topology.LinkJoins` | include/collectivefabric/topology.hpp:117-126 | a link is found between its two devices alone, measured before nominal |
| `Topology.NodeOfDevice` | include/collectivefabric/topology.hpp:107-110 | a device is found on the node it was added to |
| `Topology.MeasuredLinkPassedOver` | include/collectivefabric/topology.hpp:116-126 | two links of which the measured one is passed over |
| `Runtime.Runtime.TransitionTo` | src/runtime.cpp:82-83 | unknown execution or illegal move throws and changes nothing |
| `Runtime.Runtime.CommitOutputs` | src/runtime.cpp:161-196 | the whole commit |
| `Runtime.Runtime.RecordFailure` | src/runtime.cpp:155-160 | the failing commit: swallowed move, failure record, failed bytes |
| `Runtime.Runtime.CountFailure` | src/runtime.cpp:158-158 | failed bytes, whose size computation may throw |
| `Recovery.RebuildGroup` | tools/coordinator.cpp:336-342 | adding the persisted participants in order and building succeeds exactly on rebuildable groups and yields their membership |
| `Group.Sort` | include/collectivefabric/group.hpp:136-141 | a permutation in non-decreasing key order; nothing is promised for equal keys |
| `ReferenceEngine.CheckSizes` | include/collectivefabric/reference/engine.hpp:126-130 | enough inputs, all of the wanted size |
| `ReferenceEngine.BlockInputs` | include/collectivefabric/reference/engine.hpp:117-120 | the spans handed to the reduction are everyone's block b |
| `Sha256.Hasher.PushByte` | include/collectivefabric/digest/sha256.hpp:30-34 | one byte is absorbed; a full buffer is compressed at once |
| `Sha256.Hasher.PushLength` | include/collectivefabric/digest/sha256.hpp:46-49 | the eight length bytes are absorbed, most significant first |
| `Bytes.PushBE` | include/collectivefabric/digest/canonical.hpp:56-58 | the shifting loop appends the big-endian bytes |
| `Bytes.ReadBE` | src/protocol.cpp:14-22 | the shifting loop reads the big-endian number |
| `Bytes.BigEndian` | include/collectivefabric/digest/canonical.hpp:56-58 | byte i of n is the digit of weight 256^(n - 1 - i) |
| `Bytes.ReadEight` | src/protocol.cpp:18-22 | eight bytes as a number, most significant first |
| `StoreCodec.WriteGroup` | src/store.cpp:28-38 | appends the group's encoding |
| `StoreCodec.WriteMeasurement` | src/store.cpp:40-46 | appends the measurement's encoding |
| `StoreCodec.WriteHealth` | src/store.cpp:59-63 | appends the presence byte and the record |
| `StoreCodec.WriteBackends` | src/store.cpp:64-65 | appends the count and every backend |
| `StoreCodec.ReadParticipants` | src/store.cpp:104-127 | reads the participants, refusing repeated ids and ranks, as the parser does |
| `StoreCodec.ReadGroups` | src/store.cpp:82-131 | reads the groups, refusing repeated keys, as the parser does |
| `StoreCodec.ReadMeasurements` | src/store.cpp:133-163 | reads the measurements, refusing repeated ids, as the parser does |
| `StoreCodec.ReadHealth` | src/store.cpp:165-177 | reads the optional health record as the parser does |
| `StoreCodec.ReadBackends` | src/store.cpp:179-189 | reads the backends as the parser does |
| `Planner.BestReal` | src/planner.cpp:199-222 | the first pass, with the comparison by estimated time: the best so far is within one tolerance a round of every candidate seen, and the strict best when estimates are separated |
| `Planner.PreferredOrder` | src/planner.cpp:205-220 | when no estimates are blurred by the tolerance, the comparison is a strict total order |
| `Planner.Fallback` | src/planner.cpp:223-230 | the second pass keeps the first of the cheapest feasible candidates |
One-line members are proved like the others but have no row: constructors, `CollectiveStarted` and the
other plain counters of the accounting, `CancelCollective` and `MarkStaleCollective` (the guarded move
alone), `AddParticipant`, `Feed`, `Crc.Value` and `Reset`, `Hasher.Reset` and `AddState`, the byte and
boolean members of the canonical writer and reader, `HasNode`, `HasDevice` and `Width`. The effects of
single calls, such as `ReportEffect`, `CommitEffect` and `FailureEffect`, are steps of the proofs above.

## Left out

- Planner.CeilLog2: requires n up to 2^63, because above that the shift drops the only bit and the loop in the source never ends; `ModelPath`, `Candidates`, `Plan`, `PlanCollective` and the selection lemmas inherit the bound.
- Planner.Plan: estimated times are real numbers with the source's tolerance of 1e-12; their rounding in double precision is not modelled. Decision factors, explanation text, overlap reasons and the generations copied into a plan are left out too.
- Planner.BestReal: compares exact real estimates; the rounding of doubles is not modelled.
- ReferenceEngine.Execute: what C++ leaves undefined or to the hardware, signed overflow and floating-point arithmetic, is one arbitrary function parameter on bit patterns, so the laws hold whatever it is; it requires exactly what the source indexes or copies without a check (`Defined`), once sizes fit: an existing root for a REDUCE whose inputs pass the size check, at least one rank for ALL_REDUCE, a first input for ALL_GATHER and long enough buffers once it has the right size, and for REDUCE_SCATTER all inputs unless one of those given has the wrong size.
- ReferenceEngine.Gather: has the same precondition.
- ReferenceEngine.Scatter: has the same precondition.
- ReferenceEngine.ReduceInto: the view of a byte buffer as elements is little-endian; alignment is not modelled.
- Sha256.Hasher.Finish: promises the digest below 2^61 bytes, where the bit length fits in 64 bits, as FIPS 180-4 does.
- RuntimeRuns.StepKeeps: a call whose engine invocation the source leaves undefined has no further step; calls into the accounting object from outside are ordered before or after a section, although they take another lock; the planner's answer to a planning step is arbitrary.
- RuntimeDrain.CountsHeldIffDisciplined: speaks of runs without bookings from outside, for which `ActiveIsOpenedMinusClosed` states what is counted.
- Runtime.Runtime.PlanCollective: of a plan, the algorithm, backend, steps and byte movement are kept; its transport, rank order, hierarchy depth, generations, factors and texts are not.
- Runtime.Runtime.Measure: of a measurement, clocks, throughput figures, the topology generation and the fixed provenance, freshness and generation are not kept.
- Runtime.Runtime.CommitOutputs: inherits that.
- Runtime.Runtime.FailCollective: of a failure record, the time, the source and the narrative are not kept.
- Runtime.Runtime.RecordFailure: inherits that.
- Runtime.Runtime.Execute: inherits both.
- StoreFile.Load: works on the bytes of the file; opening, reading, writing and renaming files are not modelled.
- Recovery.Recover: stops where the recovered coordinator starts to listen, and leaves out the registration of the reference backend.
- Ids are drawn from an unbounded counter, and container sizes stay below 2^64: the wrap of the id counter is not modelled.
- Backend registration, topology adoption and health reports in the runtime, which touch no execution: maps, one comparison and one field.
- The remaining accounting counters (transmitted bytes, retries, rejections, restarts, reconfigurations) only ever go up by their argument.
- Texts of errors and reasons: the model keeps error codes in the runtime, one fault per kind of refusal in the store, and one reason per kind of refusal in the protocol and the file.
- Sockets, processes, logging, the command line, CUDA code, examples and benchmarks.
- Enum-to-string tables, digests of groups, topologies and descriptors, and the hexadecimal form of a digest: one-branch facts or direct uses of the modelled encoder and hash.
- Reader and writer members for 16-bit, 32-bit, signed and floating-point fields: the store uses none of them.
- Concurrency of lookups that only read (`execution_state`, `outputs`, measurement queries) is not modelled; they change nothing.
- Vectors, maps and sets of the source are `seq`, `map` and `set` fields that the methods reassign; object identity and references into containers are not modelled, except that a call keeps the descriptor and group it looked up, which runs never change.

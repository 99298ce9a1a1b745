# Route planning core: proofs

This project models the algorithmic core of the assfire suite in Dafny 4.11 and proves what it is for.

- **Schedulers.** `Timetable.dfy` describes timetables over a row of stops: the greedy earliest timetable, the
  budgeted slide to the right, and its optimality. `Scheduling.dfy` holds the waybill classes and the two scheduling
  algorithms, whose loops write exactly these timetables into the allocations.
- **2-opt solver.** `Tours.dfy` has the in-place reversal and the path cost, `TwoOptSearch.dfy` the enumeration of
  moves and the deterministic walk over them, `TwoOptSession.dfy` the checkpoint container, the controller's
  publications and the algorithm itself, `TwoOptRuns.dfy` whole histories of interrupted and resumed runs,
  `TwoOptOptimality.dfy` and `TwoOptTightness.dfy` when the result is locally optimal.
- **Route caches.** `Decimal.dfy`, `LocationKeys.dfy` and `RedisSerializer.dfy` are the text layer, `RedisCache.dfy`
  the read-through cache, `Matrix.dfy` and `DistanceMatrixEngines.dfy` the lazily growing matrix and the plain engine
  it refines, `BatchClient.dfy` the de-duplicating batch request.
- **Exclusion protocols.** `ControllerProtocol.dfy` and `WorkerProtocol.dfy` are step systems with any number of
  threads, workers, tasks and duplicate messages, whose runs `Runs.dfy` defines; `WorkerAttempts.dfy` says how often a
  task is started and what the next worker makes of its status, `FinishedTasks.dfy` what can undo the status FINISHED,
  `WorkerCallbacks.dfy` which saved states change under their lock, `WorkerTransparency.dfy` that the workers end with
  the solution of one uninterrupted search, and `TaskProvider.dfy` ties the worker's store to its redis keys.

`dafny verify dfyconfig.toml` checks everything.

## How the model reads the source

- Times are unbounded integers in seconds; distances and costs are reals. A missing time window is `[0, INT64_MAX]`.
- The distance matrix of the schedulers, the cost function, the validator and the route backends are deterministic
  functions and parameters of the model. The schedulers use the matrix with its default policy, under which a lookup
  does not fail.
- While a run of the 2-opt algorithm is under way, other threads may set the interrupt flag between any two of its
  reads, and none clears it (`InterruptReachesBody`). What each read sees is kept in a log.
- The loop bodies and the inner loop of the bilinear scheduler, the parts of the 2-opt run before, in and inside its
  loop, the supplier passed to the matrix constructor and the fan-out of one answer are methods of their own.
- A route backend's exception is a `Failure`. The engines rethrow exceptions by value, so only the base class is left
  of them (`RETHROWN`).
- A failed extraction from a string stream leaves later values unspecified; the decoder then returns `None`.
- A step of a protocol is one read, write or command of the source on what is shared; a wait is one step, taken when it
  is over. Replies may be lost and commands may fail where the source handles that. Any call to redis inside the
  worker's try block may also throw by itself, the early unlocks included; the command has not been carried out then.
- A worker's listener thread copies the registered callback under its mutex and calls the copy afterwards. Copying,
  raising the flag, sending the status, clearing the saved state and setting `done` are steps of their own, which
  neither unsubscribing nor unlocking waits for; the callbacks of one worker run one after the other. An exception ends
  the listener thread.
- A controller's new body runs before its future is stored, which waits for the body of the old one. The destructor
  begins when no thread is inside `launchTask`, as the language demands. An algorithm publishes nothing after its final
  solution, as both algorithms of the repository do.
- The redis suffix is printed from engine type, rounded speed, waypoint flag and geometry; how a stream prints a
  floating-point number is a parameter. The backend depends on these settings.

## Where the code does not do what one would expect

Each of these is kept as it is and has a lemma with the exact condition or a concrete case.

- The bilinear schedule has the least span exactly when the initial budget of 3600000000 seconds, less the waiting at
  the first stop, covers the possible postponement (`SlidHasLeastSpanIff`); two stops for which it does not are in
  `CenturyIsNotSqueezed`. The waiting at the first stop is charged to the budget though it moves nothing.
- A checkpoint whose move reaches the end of the order is rejected on loading and the search restarts
  (`CheckpointIsUsedIff`). The final result is the same all the same (`PauseResumeIsTransparent`), but a search paused
  after every trial never gets there (`PausingEveryTrialNeverEnds`), and there are such searches of any length
  (`PausedChainExists`).
- A run whose interrupt is first seen before a trial, and not after one, leaves the state it began with, however many
  trials it has made (`SolveTsp`, `RunTask`).
- The final order need not be locally optimal, even by path cost (`SearchEndsBesideCheaperOrder`). How many different
  costs cheaper than the first may occur so that it surely is: any number up to three points, and from four points on
  exactly as many as there are points (`CostsGuaranteeIff`).
- A session with a published final solution can be launched again exactly when a thread is past the check for it or a
  body is already solving it again (`FinishedSessionCanBeRelaunchedIff`); `FinishedSessionIsRelaunched` is such a run.
- If a body cannot be started, the session counts as started forever and nothing is launched any more
  (`FailedStartBlocksForever`).
- The status FINISHED can be overwritten, by a heartbeat (`HeartbeatOverwritesFinished`) and even when nobody holds the
  task any more, by a callback (`LatePauseRerunsFinished`); `FinishedCanBeOverwrittenIff` lists exactly from where,
  leaving out what undoes it from everywhere: the server, a failing check (`FailingCheckUndoesFinished`) and an
  exception of the unlock that answers the check (`ThrowingUnlockUndoesFinished`).
- An interrupt callback can clear a saved state after its worker has given the lock back, when the state is already
  another worker's (`LateCallbackLosesSavedState`). Saved states change under their lock as long as no worker unlocks
  ahead of its callback (`SavedStatesChangeUnderLock`), and whenever one does, they need not
  (`UnlockingAheadLosesOrder`).
- A lock whose acquire lost its answer, or whose release failed, is never free again (`OrphanedIff`,
  `CanBeHeldIff`); `LostReplyOrphansLock` is such a run.
- A task that is never paused is started at most four times, since the fifth attempt is given up before it starts
  (`StartsAreBounded`).
- Engines whose speeds are printed alike share their redis keys, and one may answer with the other's route
  (`FasterEngineFindsSlowerRoute`); with a stream that tells thousandths apart they are exactly those with the same
  nearest thousandth (`KeysAgreeIff`). A shared store is right for all its engines exactly when engines with one suffix
  have backends that answer alike (`SharedStoreIsFaithfulIff`).
- The matrix cache's location key has no separator, so different locations can collide; cached routes are a
  location's own, whatever the backend, exactly when its key is its own (`AlwaysDirectIffNoCollision`). Under the
  throwing policy a lookup of known locations also fails exactly when the filling lacks any route (`WouldThrow`), such
  as one between other places (`MissingRouteFailsOthers`).
- The batch client writes zero into the diagonal of its result even where origin and destination differ; the test
  `RequestsRouteInfoMatrix` in `apps/router/tests/client/GrpcRouteProviderEngineTest.cpp` expects that and calls it a
  route from a place to itself. The batch agrees with single requests exactly when those routes are zero
  (`BatchAgreesIff`).
- A stored route with more waypoints than a 32-bit count holds cannot be read back (`DetailsRoundTrip`).

## Model

| member | source | states |
|---|---|---|
| Timetable.EarliestIsFeasible | apps/scheduler/engine/assfire/scheduler/engine/algorithms/LinearWaybillSchedulingAlgorithm.cpp:11-20 | the greedy pass respects the shift start, the travel and the windows' starts |
| Timetable.EarliestAt | apps/scheduler/engine/assfire/scheduler/engine/algorithms/LinearWaybillSchedulingAlgorithm.cpp:16-20 | every start of the greedy pass is the later of the arrival and the start of the window |
| Timetable.EarliestIsLeast | apps/scheduler/engine/assfire/scheduler/engine/algorithms/LinearWaybillSchedulingAlgorithm.cpp:11-20 | every timetable that respects shift start, travel and windows' starts begins each stop no earlier than the greedy pass does |
| Timetable.WindowsCanBeMetIff | apps/scheduler/engine/assfire/scheduler/engine/algorithms/LinearWaybillSchedulingAlgorithm.cpp:11-20 | some timetable meets all windows if and only if the greedy one does |
| Timetable.TotalShift | apps/scheduler/engine/assfire/scheduler/engine/algorithms/BilinearWaybillSchedulingAlgorithm.cpp:19-31 | all prefix shifts together are exactly what the budget and the forward time slack of the remaining stops both allow |
| Timetable.SlidGap | apps/scheduler/engine/assfire/scheduler/engine/algorithms/BilinearWaybillSchedulingAlgorithm.cpp:19-32 | the idle gap before a stop in the final schedule is the greedy gap minus the shift taken there, and never negative |
| Timetable.SlidIsFeasible | apps/scheduler/engine/assfire/scheduler/engine/algorithms/BilinearWaybillSchedulingAlgorithm.cpp:12-33 | the shifted schedule respects shift start, travel and windows' starts, and its last stop is where the greedy pass puts it |
| Timetable.SlidKeepsLateness | apps/scheduler/engine/assfire/scheduler/engine/algorithms/BilinearWaybillSchedulingAlgorithm.cpp:19-32 | no stop is earlier than under the greedy pass; a stop on time stays on time and a late one is late by exactly the same amount |
| Timetable.LateArrivalDelaysFinish | apps/scheduler/engine/assfire/scheduler/engine/algorithms/BilinearWaybillSchedulingAlgorithm.cpp:19-32 | putting off the arrival by more than the forward slack delays the finish of every timetable with no stop later than under the greedy pass by at least the excess |
| Timetable.FirstStart | apps/scheduler/engine/assfire/scheduler/engine/algorithms/BilinearWaybillSchedulingAlgorithm.cpp:12-33 | the final first start is the greedy one plus the smaller of the possible postponement and the budget left for it |
| Timetable.SpanIsBounded | apps/scheduler/engine/assfire/scheduler/engine/algorithms/BilinearWaybillSchedulingAlgorithm.cpp:12-33 | no timetable without later stops has a span shorter than the greedy span minus the postponement |
| Timetable.SlidIsNoLater | apps/scheduler/engine/assfire/scheduler/engine/algorithms/BilinearWaybillSchedulingAlgorithm.cpp:12-33 | no stop of the shifted schedule is later than under the greedy pass; if the windows can be met, it meets them |
| Timetable.SlidHasLeastSpanIff | apps/scheduler/engine/assfire/scheduler/engine/algorithms/BilinearWaybillSchedulingAlgorithm.cpp:12-33 | of all timetables with no stop later than under the greedy pass, even those that finish later, the shifted schedule has the least span if and only if the budget left after the first waiting covers the postponement; windows that cannot be met are included |
| Timetable.SlidHasLeastSpanOnTimeIff | apps/scheduler/engine/assfire/scheduler/engine/algorithms/BilinearWaybillSchedulingAlgorithm.cpp:12-33 | where the windows can be met, the same among all timetables that meet them |
| Timetable.LongWaitIsNotSqueezed | apps/scheduler/engine/assfire/scheduler/engine/algorithms/BilinearWaybillSchedulingAlgorithm.cpp:12-33 | for two stops with a wait and a first window longer than the initial budget the span is not the least |
| Timetable.CenturyIsNotSqueezed | apps/scheduler/engine/assfire/scheduler/engine/algorithms/BilinearWaybillSchedulingAlgorithm.cpp:12-33 | a row of two stops whose windows can be met and for which it is not |
| Timetable.SlidDepartsLatest | apps/scheduler/engine/assfire/scheduler/engine/algorithms/BilinearWaybillSchedulingAlgorithm.cpp:12-33 | with that budget, no timetable without later stops that finishes as early starts its first stop later |
| Timetable.WaitingWithinBudget | apps/scheduler/engine/assfire/scheduler/engine/algorithms/BilinearWaybillSchedulingAlgorithm.cpp:12-33 | a budget of the total waiting is enough for both |
| Scheduling.WaybillAllocation.ShiftStartTime | apps/scheduler/api/assfire/scheduler/api/WaybillAllocation.cpp:59-62 | both times of the allocation move by the interval |
| Scheduling.LinearWaybillSchedulingAlgorithm.ScheduleWaybill | apps/scheduler/engine/assfire/scheduler/engine/algorithms/LinearWaybillSchedulingAlgorithm.cpp:10-21 | every allocation starts at the later of its arrival, that is the end of the one before plus the matrix duration, and the start of its first window; it ends after its planned duration and knows the route to its successor; this is the earliest timetable |
| Scheduling.BilinearWaybillSchedulingAlgorithm.ShiftPrefix | apps/scheduler/engine/assfire/scheduler/engine/algorithms/BilinearWaybillSchedulingAlgorithm.cpp:21-25 | a positive shift moves the allocations before the current one to the right, ends included |
| Scheduling.PassEnds | apps/scheduler/engine/assfire/scheduler/engine/algorithms/BilinearWaybillSchedulingAlgorithm.cpp:14-33 | handling the stops one by one, moving the whole prefix each time, gives the shifted timetable |
| Scheduling.PassIsSchedule | apps/scheduler/engine/assfire/scheduler/engine/algorithms/BilinearWaybillSchedulingAlgorithm.cpp:12-33 | allocations that hold what the pass ends with respect windows and travel, are late only if they must be, and have the first start put off within the budget |
| Scheduling.BilinearWaybillSchedulingAlgorithm.ScheduleNext | apps/scheduler/engine/assfire/scheduler/engine/algorithms/BilinearWaybillSchedulingAlgorithm.cpp:14-33 | one turn of the loop routes the allocation, moves the prefix, gives the allocation its times and goes on with the time and the budget of the pass |
| Scheduling.BilinearWaybillSchedulingAlgorithm.ScheduleWaybill | apps/scheduler/engine/assfire/scheduler/engine/algorithms/BilinearWaybillSchedulingAlgorithm.cpp:10-34 | every allocation starts no earlier than its first window opens and than one arrives, is late exactly if it must be, and only by as much; the first one is put off as far as the rest and a budget of 3600000000 seconds less its own waiting allow; this is the shifted timetable |
| Tours.ReverseInPlace | apps/tsp/engine/assfire/tsp/engine/algorithms/TwoOptTspAlgorithm.cpp:76-89 | the stretch [i, j) of the working sequence is reversed in place, the rest kept |
| Tours.ReversedTwice | apps/tsp/engine/assfire/tsp/engine/algorithms/TwoOptTspAlgorithm.cpp:76-86 | repeating a rejected reversal undoes it |
| Tours.ReversedKeepsPermutation | apps/tsp/engine/assfire/tsp/engine/algorithms/TwoOptTspAlgorithm.cpp:76 | a reversal still visits every point once |
| Tours.Estimate | apps/tsp/engine/assfire/tsp/engine/TotalDistanceTspCostFunction.cpp:9-15 | the loop adds up the path cost |
| Tours.PathCostConcat | apps/tsp/engine/assfire/tsp/engine/TotalDistanceTspCostFunction.cpp:10-13 | the cost of two joined stretches is theirs plus the connecting edge |
| Tours.ReversalExchangesTwoEdges | apps/tsp/engine/assfire/tsp/engine/TotalDistanceTspCostFunction.cpp:9-15 | with symmetric distances a reversal changes the cost by just the two edges at the ends of the stretch |
| TwoOptSearch.MovesBeforeClosed | apps/tsp/engine/assfire/tsp/engine/algorithms/TwoOptTspAlgorithm.cpp:123-131 | n(n+1)/2 moves make a pass |
| TwoOptSearch.NextRaisesRank | apps/tsp/engine/assfire/tsp/engine/algorithms/TwoOptTspAlgorithm.cpp:116-136 | the next state is valid and its rank is greater by exactly one |
| TwoOptSearch.RankIsBounded | apps/tsp/engine/assfire/tsp/engine/algorithms/TwoOptTspAlgorithm.cpp:135 | there is no next state exactly at the greatest rank |
| TwoOptSearch.FreshSearchLength | apps/tsp/engine/assfire/tsp/engine/algorithms/TwoOptTspAlgorithm.cpp:72-98 | a fresh uninterrupted search makes exactly n*n*(n+1)/2 - 1 trials |
| TwoOptSearch.EveryMoveIsTried | apps/tsp/engine/assfire/tsp/engine/algorithms/TwoOptTspAlgorithm.cpp:113-136 | every move of every pass but the trivial first one is tried, in the trial of its rank |
| TwoOptSearch.WalkComposes | apps/tsp/engine/assfire/tsp/engine/algorithms/TwoOptTspAlgorithm.cpp:72-98 | continuing a search where it stopped is the same as not stopping |
| TwoOptSearch.FinalIsUnique | apps/tsp/engine/assfire/tsp/engine/algorithms/TwoOptTspAlgorithm.cpp:72-100 | resumed from any point on its way, the search ends in the same order |
| TwoOptSearch.WalkKeepsPermutation | apps/tsp/engine/assfire/tsp/engine/algorithms/TwoOptTspAlgorithm.cpp:72-98 | the best order always visits every point once |
| TwoOptSearch.WalkCostFalls | apps/tsp/engine/assfire/tsp/engine/algorithms/TwoOptTspAlgorithm.cpp:80-86 | between two moments of a search the cost falls strictly or the order is the same |
| TwoOptSearch.IdlePassIsLocallyOptimal | apps/tsp/engine/assfire/tsp/engine/algorithms/TwoOptTspAlgorithm.cpp:72-98 | a whole pass that accepts nothing proves that no valid reversal is cheaper |
| TwoOptSearch.LocalOptimumStays | apps/tsp/engine/assfire/tsp/engine/algorithms/TwoOptTspAlgorithm.cpp:72-100 | from a locally optimal order on, nothing changes up to the end |
| TwoOptSearch.FinalIsLocallyOptimalOrAllPassesImprove | apps/tsp/engine/assfire/tsp/engine/algorithms/TwoOptTspAlgorithm.cpp:72-100 | the final order is locally optimal unless each pass found a cheaper one |
| TwoOptOptimality.FewCostsMakeLocallyOptimal | apps/tsp/engine/assfire/tsp/engine/algorithms/TwoOptTspAlgorithm.cpp:72-100 | if the valid orders cheaper than the first have at most as many different costs as there are points, the final order is locally optimal |
| TwoOptOptimality.FourPasses | apps/tsp/engine/assfire/tsp/engine/algorithms/TwoOptTspAlgorithm.cpp:72-100 | a fresh search over four points is four passes of six effective trials each |
| TwoOptOptimality.SearchEndsBesideCheaperOrder | apps/tsp/engine/assfire/tsp/engine/algorithms/TwoOptTspAlgorithm.cpp:72-100 | distances between four points for which the final order has a cheaper neighbour |
| TwoOptTightness.OnlyNext | apps/tsp/engine/assfire/tsp/engine/algorithms/TwoOptTspAlgorithm.cpp:76-90 | along the chain of orders, for any number of points from four on, no reversal leads to a later order but the one to the next |
| TwoOptTightness.SearchEndsOnChain | apps/tsp/engine/assfire/tsp/engine/algorithms/TwoOptTspAlgorithm.cpp:72-100 | a search led along that chain takes one step of it in each pass and ends before its last order |
| TwoOptTightness.ThreePointsEndLocallyOptimal | apps/tsp/engine/assfire/tsp/engine/algorithms/TwoOptTspAlgorithm.cpp:72-100 | every search over three points ends locally optimal, whatever the costs |
| TwoOptTightness.CostsGuaranteeIff | apps/tsp/engine/assfire/tsp/engine/algorithms/TwoOptTspAlgorithm.cpp:72-100 | a number of different costs guarantees local optimality for every cost function if and only if there are at most three points or it is at most the number of points |
| TwoOptSearch.LocallyOptimalIffNoExchangeHelps | apps/tsp/engine/assfire/tsp/engine/algorithms/TwoOptTspAlgorithm.cpp:76-90 | with the symmetric path cost, locally optimal means that no exchange of two edges is cheaper |
| TwoOptSession.TspAlgorithmStateContainer.Reset | apps/tsp/engine/assfire/tsp/engine/TspAlgorithmStateContainer.cpp:23-27 | points, sequence and algorithm state are cleared |
| TwoOptSession.TspAlgorithmStateContainer.SetPoints | apps/tsp/engine/assfire/tsp/engine/TspAlgorithmStateContainer.cpp:29-34 | the ids of the points replace the stored ones, nothing else changes |
| TwoOptSession.TspAlgorithmStateContainer.SetSequence | apps/tsp/engine/assfire/tsp/engine/TspAlgorithmStateContainer.cpp:36-41 | the sequence replaces the stored one, nothing else changes |
| TwoOptSession.TspAlgorithmStateContainer.SetState | apps/tsp/engine/assfire/tsp/engine/TspAlgorithmStateContainer.cpp:69-71 | the stored state is replaced |
| TwoOptSession.TspAlgorithmStateContainer.Persist | apps/tsp/engine/assfire/tsp/engine/TspAlgorithmStateContainer.cpp:73-75 | the persister receives the state |
| TwoOptSession.UsedIff | apps/tsp/engine/assfire/tsp/engine/algorithms/TwoOptTspAlgorithm.cpp:21-40 | a saved state is used if and only if it is a 2-opt state for the same points, with an order of as many places below the size and three indices below the size |
| TwoOptSession.EngineTspSolutionController.PublishSolution | apps/tsp/engine/assfire/tsp/engine/EngineTspSolutionController.cpp:44-52 | the solution reaches the listener and decides whether the session is finished |
| TwoOptSession.TwoOptTspAlgorithm.ValidateOrResetSavedState | apps/tsp/engine/assfire/tsp/engine/algorithms/TwoOptTspAlgorithm.cpp:21-40 | a saved state is kept if it is consistent, fits the task and its indices are below the size, otherwise it is reset |
| TwoOptSession.TwoOptTspAlgorithm.CreateInitialSolution | apps/tsp/engine/assfire/tsp/engine/algorithms/TwoOptTspAlgorithm.cpp:42-57 | the search begins with the saved sequence or else in the order of the task |
| TwoOptSession.TwoOptTspAlgorithm.SaveState | apps/tsp/engine/assfire/tsp/engine/algorithms/TwoOptTspAlgorithm.cpp:138-146 | the container holds the points, the sequence and the move, and nothing older |
| TwoOptSession.TwoOptTspAlgorithm.Try | apps/tsp/engine/assfire/tsp/engine/algorithms/TwoOptTspAlgorithm.cpp:76-90 | the working sequence is reversed if that is valid and strictly cheaper, and published then; otherwise it is as before |
| TwoOptSession.TwoOptTspAlgorithm.Begin | apps/tsp/engine/assfire/tsp/engine/algorithms/TwoOptTspAlgorithm.cpp:62-70 | the search starts at the resumed point, whose order is published |
| TwoOptSession.TwoOptTspAlgorithm.Iterate | apps/tsp/engine/assfire/tsp/engine/algorithms/TwoOptTspAlgorithm.cpp:73-97 | one more trial of the walk is made and published if accepted; if a move is left and the flag is read then, the container holds just the points, the best order and that move, and otherwise what it held |
| TwoOptSession.TwoOptTspAlgorithm.Search | apps/tsp/engine/assfire/tsp/engine/algorithms/TwoOptTspAlgorithm.cpp:72-98 | the loop ends when no move is left or the flag is read before a trial; the container follows the reads of the flag |
| TwoOptSession.TwoOptTspAlgorithm.SolveTsp | apps/tsp/engine/assfire/tsp/engine/algorithms/TwoOptTspAlgorithm.cpp:59-102 | whenever the flag is set: what is published is that of some prefix of the walk from the resumed point; no trial follows a read that saw the flag; the state left is the checkpoint after the last trial exactly if the read after it saw the flag with a move left, and the validated old state otherwise |
| TwoOptRuns.PublishedCostsFall | apps/tsp/engine/assfire/tsp/engine/algorithms/TwoOptTspAlgorithm.cpp:64-100 | within a run published costs fall strictly until the closing publication repeats the best, final exactly when no move is left |
| TwoOptRuns.RunStaysOnTrajectory | apps/tsp/engine/assfire/tsp/engine/algorithms/TwoOptTspAlgorithm.cpp:94-97 | whatever checkpoint a run leaves is a point of the one uninterrupted search |
| TwoOptRuns.SeenInterruptResumes | apps/tsp/engine/assfire/tsp/engine/algorithms/TwoOptTspAlgorithm.cpp:94-97 | what a run leaves whose interrupt was seen after a trial is resumed right behind that trial, unless the next move reaches the end of the order |
| TwoOptRuns.CheckpointIsUsedIff | apps/tsp/engine/assfire/tsp/engine/algorithms/TwoOptTspAlgorithm.cpp:29-38 | a checkpoint is taken up again exactly when its j is below the size; otherwise the search restarts |
| TwoOptRuns.HistoryStaysOnTrajectory | apps/tsp/engine/assfire/tsp/engine/algorithms/TwoOptTspAlgorithm.cpp:59-102 | in every history of runs, with stale, dropped and rejected checkpoints, all states are points of the uninterrupted search |
| TwoOptRuns.PauseResumeIsTransparent | apps/tsp/engine/assfire/tsp/engine/algorithms/TwoOptTspAlgorithm.cpp:21-158 | any final solution published in any history of interrupted runs is the one the uninterrupted search ends with |
| TwoOptRuns.UninterruptedRunPublishesFinal | apps/tsp/engine/assfire/tsp/engine/algorithms/TwoOptTspAlgorithm.cpp:59-102 | the fresh run that makes all its trials publishes that solution as its final one, and it is the cheapest it has published |
| TwoOptRuns.PublishedOrdersArePermutations | apps/tsp/engine/assfire/tsp/engine/algorithms/TwoOptTspAlgorithm.cpp:64-100 | every solution ever published visits each point once |
| TwoOptRuns.UsableCheckpointsBringTheEnd | apps/tsp/engine/assfire/tsp/engine/algorithms/TwoOptTspAlgorithm.cpp:29-38 | a chain of resumed runs that each leave a checkpoint with j below the size has no more runs than a fresh search has trials |
| TwoOptRuns.PausingEveryTrialNeverEnds | apps/tsp/engine/assfire/tsp/engine/algorithms/TwoOptTspAlgorithm.cpp:29-38 | a chain of runs that are each paused after one trial never publishes a final solution and never gets beyond the moves that start at the first place |
| TwoOptRuns.PausedChainExists | apps/tsp/engine/assfire/tsp/engine/algorithms/TwoOptTspAlgorithm.cpp:72-97 | such chains of runs exist in every length |
| TwoOptRuns.RunTask | apps/tsp/engine/assfire/tsp/engine/EngineTspSolutionController.cpp:61-88 | repeated for a resumed session: a finished session does nothing; a final solution is the uninterrupted one; everything unfinished is persisted, and is resumed behind the last trial if the interrupt was seen after it (unless the move reaches the end) and from the same place as before otherwise |
| ControllerProtocol.CasKeepsCount | apps/tsp/engine/assfire/tsp/engine/EngineTspSolutionController.cpp:67-68 | winning the compare-and-swap makes the launcher the only active one |
| ControllerProtocol.StartKeepsCount | apps/tsp/engine/assfire/tsp/engine/EngineTspSolutionController.cpp:72-88 | the started body takes over from its launcher |
| ControllerProtocol.StartFindsOthersLeaving | apps/tsp/engine/assfire/tsp/engine/EngineTspSolutionController.cpp:72-88 | when a body is started, before its future is stored, every older body has left the algorithm and the container |
| ControllerProtocol.AssignKeepsOwned | apps/tsp/engine/assfire/tsp/engine/EngineTspSolutionController.cpp:72 | storing the new future lets go only of a body that is done |
| ControllerProtocol.BodyKeepsCount | apps/tsp/engine/assfire/tsp/engine/EngineTspSolutionController.cpp:72-88 | a body is active until it clears the started flag |
| ControllerProtocol.ExclusionHolds | apps/tsp/engine/assfire/tsp/engine/EngineTspSolutionController.cpp:61-92 | under every interleaving, failed starts included, launchers past the compare-and-swap and running bodies number one if started is set and none otherwise, or after a failed start; a body that is not done has its future stored or a thread about to store it |
| ControllerProtocol.OneBodyInTheContainer | apps/tsp/engine/assfire/tsp/engine/EngineTspSolutionController.cpp:72-88 | two running bodies are the same one, and no launcher is active beside it |
| ControllerProtocol.NothingRunsAfterDestructor | apps/tsp/engine/assfire/tsp/engine/EngineTspSolutionController.cpp:54-99 | once the destructor has finished, every body is done and no step of any thread or body is possible |
| ControllerProtocol.InterruptReachesBody | apps/tsp/engine/assfire/tsp/engine/EngineTspSolutionController.cpp:21-29 | an interrupt, a pause or the destructor that finds a body running leaves the flag set for as long as that body runs, whatever the other threads do |
| ControllerProtocol.InterruptedBodyEndsFirst | apps/tsp/engine/assfire/tsp/engine/EngineTspSolutionController.cpp:94-99 | after an interrupt the next body is started only when the interrupted one is done |
| ControllerProtocol.PersistedIff | apps/tsp/engine/assfire/tsp/engine/EngineTspSolutionController.cpp:73-87 | a body persists the state on its way out if and only if it has not failed and there is no final solution then |
| ControllerProtocol.FinalStaysFinal | apps/tsp/engine/assfire/tsp/engine/EngineTspSolutionController.cpp:44-52 | a final solution stays final for as long as the body that has published it runs |
| ControllerProtocol.RetiredForever | apps/tsp/engine/assfire/tsp/engine/EngineTspSolutionController.cpp:61-68 | a finished or stuck session with nobody who may launch is never launched again |
| ControllerProtocol.FinishedSessionCanBeRelaunchedIff | apps/tsp/engine/assfire/tsp/engine/EngineTspSolutionController.cpp:61-68 | a session whose final solution is published, stopped or not, can be launched again if and only if a thread is past the check for it or a body is solving it again |
| ControllerProtocol.FinishedSessionIsRelaunched | apps/tsp/engine/assfire/tsp/engine/EngineTspSolutionController.cpp:61-92 | a run of two threads that solves a finished session again while its first body has yet to return |
| ControllerProtocol.FailedStartBlocksForever | apps/tsp/engine/assfire/tsp/engine/EngineTspSolutionController.cpp:68-88 | after an exception from the start of a body the started flag stays set and nothing is ever launched |
| TaskProvider.KeysAreSeparate | apps/tsp/worker/assfire/tsp/worker/impl/TspWorkerKeys.cpp:5-31 | no redis key of one task or kind is a key of another, whatever the task ids |
| TaskProvider.RedisTaskProvider.TryLock | apps/tsp/worker/assfire/tsp/worker/impl/RedisTaskProvider.cpp:36-46 | the lock is won exactly if it was free and the answer arrives; unless the command was refused its key holds "1" afterwards; nothing else changes |
| TaskProvider.RedisTaskProvider.Unlock | apps/tsp/worker/assfire/tsp/worker/impl/RedisTaskProvider.cpp:48-56 | the lock key is gone afterwards unless the command failed; nothing else changes |
| TaskProvider.RedisTaskProvider.IncAttempts | apps/tsp/worker/assfire/tsp/worker/impl/RedisTaskProvider.cpp:113-121 | the printed count goes up by one and is returned; an error reply throws, and the count may have gone up all the same; nothing else changes |
| TaskProvider.RedisTaskProvider.SendStatusSignal | apps/tsp/worker/assfire/tsp/worker/impl/RedisTaskProvider.cpp:100-111 | the status key holds the name of the status afterwards unless the command was refused, the keep-alive key "1" unless its own command failed; it throws unless answered; nothing else changes |
| TaskProvider.RedisTaskProvider.IsFinished | apps/tsp/worker/assfire/tsp/worker/impl/RedisTaskProvider.cpp:82-89 | true exactly if the read succeeds and finds FINISHED |
| TaskProvider.RedisTaskProvider.IsPaused | apps/tsp/worker/assfire/tsp/worker/impl/RedisTaskProvider.cpp:91-98 | true exactly if the read succeeds and finds PAUSED |
| WorkerProtocol.ExclusiveKept | apps/tsp/worker/assfire/tsp/worker/Worker.cpp:44-157 | every step keeps: only one worker at a time is between its acquire and its release of a task's lock, and the lock is taken then, lost replies and failed releases included |
| WorkerProtocol.InvKept | apps/tsp/worker/assfire/tsp/worker/Worker.cpp:36-158 | every step of any worker, listener thread, task body or server keeps exclusion, the bookkeeping of locks and the bound on attempts |
| WorkerProtocol.SolvingOnlyUnderLock | apps/tsp/worker/assfire/tsp/worker/Worker.cpp:112-157 | in every run a task is solved, and its control signals are taken in, only by the one worker that holds its lock |
| WorkerProtocol.EveryAcquireIsReleased | apps/tsp/worker/assfire/tsp/worker/Worker.cpp:44-157 | in every run a worker back at its queue has had as many unlocks come back as it has acquired locks, also where an early unlock has thrown and the last one has answered |
| WorkerProtocol.OrphanedIff | apps/tsp/worker/assfire/tsp/worker/impl/RedisTaskProvider.cpp:36-56 | a lock is taken without a holder exactly after an acquire whose reply was lost or a release that failed, and from then on |
| WorkerProtocol.CanBeHeldIff | apps/tsp/worker/assfire/tsp/worker/Worker.cpp:44-47 | some worker can get a task if and only if its lock is not such an orphan |
| WorkerProtocol.LostReplyOrphansLock | apps/tsp/worker/assfire/tsp/worker/impl/RedisTaskProvider.cpp:36-46 | a run of one worker that orphans a lock |
| WorkerAttempts.RetriesAreBounded | apps/tsp/worker/assfire/tsp/worker/Worker.cpp:57-64 | in every run a task passes the attempts gate at most four times, whatever the messages, workers and pauses |
| WorkerAttempts.StartsAreBounded | apps/tsp/worker/assfire/tsp/worker/Worker.cpp:50-106 | in every run STARTED is sent for a task at most four times, and once more for every PAUSED that is sent |
| WorkerAttempts.StartsNeedMessages | apps/tsp/worker/assfire/tsp/worker/Worker.cpp:36-106 | in every run a worker sends STARTED for a task at most once for each message that names the task |
| WorkerAttempts.AttemptsAreCounted | apps/tsp/worker/assfire/tsp/worker/impl/RedisTaskProvider.cpp:113-121 | the stored count goes up by just the counting steps of the task |
| WorkerAttempts.LastWriteDecides | apps/tsp/worker/assfire/tsp/worker/Worker.cpp:50-64 | however many steps follow the last write of a status, the next worker with working reads leaves the task alone exactly if FINISHED was sent, skips the counting exactly if a pause callback sent PAUSED, and otherwise counts and gets through with at most three attempts before |
| WorkerAttempts.FailedTurnIsCounted | apps/tsp/worker/assfire/tsp/worker/Worker.cpp:147-157 | before any worker asks whether a task is paused, every earlier turn for it that threw has reported ERROR; without another write since, that worker counts an attempt |
| WorkerAttempts.WaitEndsIff | apps/tsp/worker/assfire/tsp/worker/Worker.cpp:142-145 | a worker may stop waiting if and only if its own body or a callback of its own turn has set done since it received the task |
| WorkerAttempts.BodyEndsWaitIff | apps/tsp/worker/assfire/tsp/worker/Worker.cpp:87-102 | a body sets done exactly once for every last status whose answer has come, FINISHED or ERROR, and only after it |
| FinishedTasks.FinishedCanBeOverwrittenIff | apps/tsp/worker/assfire/tsp/worker/Worker.cpp:51-157 | leaving out the server, failures of the very check and exceptions of the unlock after it, some run overwrites the status FINISHED if and only if a worker that holds the lock or a copied callback is in one of the listed places |
| FinishedTasks.FinishedTaskIsNotRerun | apps/tsp/worker/assfire/tsp/worker/Worker.cpp:51-55 | with nobody in such a place a finished task stays finished and is never solved again, however many start messages arrive |
| FinishedTasks.HeartbeatOverwritesFinished | apps/tsp/worker/assfire/tsp/worker/Worker.cpp:142-145 | a run of one worker in which the heartbeat overwrites FINISHED |
| FinishedTasks.LatePauseRerunsFinished | apps/tsp/worker/assfire/tsp/worker/impl/AmqpInterruptListener.cpp:23-36 | a run in which a finished task with a free lock is solved again because a copied callback sends PAUSED afterwards |
| FinishedTasks.FailingCheckUndoesFinished | apps/tsp/worker/assfire/tsp/worker/impl/RedisTaskProvider.cpp:82-89 | from every state with a finished task and a free lock, one more start message and a failing check lead to another status |
| FinishedTasks.ThrowingUnlockUndoesFinished | apps/tsp/worker/assfire/tsp/worker/Worker.cpp:51-55 | so do one more start message and an exception of the unlock after a successful check |
| WorkerCallbacks.SavedStatesChange | apps/tsp/worker/assfire/tsp/worker/Worker.cpp:125-134 | only bodies and interrupt callbacks change a saved state, one at a time, and all but callbacks that have outlived their lock do so under it |
| WorkerCallbacks.SavedStatesChangeUnderLock | apps/tsp/worker/assfire/tsp/worker/Worker.cpp:114-157 | in every run in which no worker unlocks before its interrupt callback has cleared the state, a saved state changes only through the holder of its task's lock |
| WorkerCallbacks.CallRunsThrough | apps/tsp/worker/assfire/tsp/worker/Worker.cpp:114-136 | a callback that comes to its end has sent one status for the task it was copied for, and has cleared the saved state once if it was an interrupt and never if it was a pause |
| WorkerCallbacks.UnlockingAheadLosesOrder | apps/tsp/worker/assfire/tsp/worker/impl/AmqpInterruptListener.cpp:51-54 | whenever a worker does unlock before, a continuation clears the state while another worker holds the lock |
| WorkerCallbacks.LateCallbackLosesSavedState | apps/tsp/worker/assfire/tsp/worker/Worker.cpp:128-131 | a run of two workers in which the callback of one removes the state that the other has saved under its lock |
| WorkerTransparency.LoadedStateWasSaved | apps/tsp/worker/assfire/tsp/worker/impl/RedisSavedStateManager.cpp:13-35 | in every run what a session starts from is nothing or a state that an earlier session of the same task has saved |
| WorkerTransparency.LastSaveIsLoaded | apps/tsp/worker/assfire/tsp/worker/impl/RedisSavedStateManager.cpp:14-50 | however many steps come in between, a session whose read works starts from just the state saved last for its task, and from nothing after a clearing or a failed read |
| WorkerTransparency.FinalSolutionsAreTransparent | apps/tsp/worker/assfire/tsp/worker/Worker.cpp:70-112 | in every run of the workers a final solution is the one with which the task's uninterrupted search ends |
| Decimal.ReadPrintedInt | apps/router/engine/assfire/router/engine/DefaultRedisSerializer.hpp:33-50 | a printed integer is read back from a stream, leaving what follows |
| Decimal.PrintedPrefixIsUnique | apps/router/engine/assfire/router/engine/DefaultRedisSerializer.hpp:23-27 | a printed integer and a blank determine the integer and the rest |
| Decimal.PrintedIffCanonical | apps/router/engine/assfire/router/engine/DefaultRedisSerializer.hpp:23-40 | a number is printed as its one decimal form without leading zeros |
| LocationKeys.BuildLocationKeyIsInjective | apps/router/client/assfire/router/client/GrpcRouteProviderEngine.cpp:65-67 | different locations have different keys in the batch client |
| LocationKeys.SerializeKeyIsInjective | apps/router/engine/assfire/router/engine/DefaultRedisSerializer.hpp:21-29 | redis keys are equal only for the same pair and the same suffix |
| RedisSerializer.SuffixesAgreeIff | apps/router/engine/assfire/router/engine/DefaultRedisSerializer.hpp:13-19 | two engines have one suffix if and only if they agree in type, waypoint flag and geometry and their speeds, as rounded, are printed alike |
| RedisSerializer.RoundedIsNearest | apps/concepts/api-cpp/assfire/concepts/Speed.cpp:14-17 | what is printed of a speed is its nearest whole number of thousandths, halves away from zero, and off by 0.0005 at most |
| RedisSerializer.SpeedsToldApartIff | apps/router/engine/assfire/router/engine/DefaultRedisSerializer.hpp:13-19 | with a stream that prints different thousandths differently, two engines have one suffix if and only if they agree in all but the speed and their speeds have the same nearest thousandth |
| LocationKeys.EncodeLocationCollides | apps/router/api/assfire/router/api/distance_matrix_engines/FullMatrixCacheDistanceMatrixEngine.cpp:79-81 | two different locations with the same key in the matrix cache |
| LocationKeys.EncodeLocationCollidesOnlyAcrossLengths | apps/router/api/assfire/router/api/distance_matrix_engines/FullMatrixCacheDistanceMatrixEngine.cpp:79-81 | such locations have latitudes printed with different lengths |
| RedisSerializer.WaypointsRoundTrip | apps/router/engine/assfire/router/engine/DefaultRedisSerializer.hpp:36-40 | any list of waypoints is read back as it was stored |
| RedisSerializer.DetailsRoundTrip | apps/router/engine/assfire/router/engine/DefaultRedisSerializer.hpp:31-68 | a stored route is read back with the same seconds and waypoints and the distance as printed, if and only if the waypoints fit the 32-bit count |
| RedisSerializer.DefaultRedisSerializer.SerializeRouteDetails | apps/router/engine/assfire/router/engine/DefaultRedisSerializer.hpp:31-43 | the stream operations write the format |
| RedisSerializer.DefaultRedisSerializer.DeserializeRouteDetails | apps/router/engine/assfire/router/engine/DefaultRedisSerializer.hpp:45-68 | the stream operations read the format |
| RedisCache.PutKeepsFaithful | apps/router/engine/assfire/router/engine/impl/route_provider_engines/RedisRouteProviderEngine.cpp:64-66 | storing an answer keeps every entry that any of the engines can look up that engine's own backend's answer, provided engines with one suffix have backends that answer alike |
| RedisCache.SharedStoreIsFaithfulIff | apps/router/engine/assfire/router/engine/impl/route_provider_engines/RedisRouteProviderEngine.cpp:38-82 | every run of puts, lost puts and evictions of several engines on one store keeps it right for all of them if and only if engines with one suffix have backends that answer alike |
| RedisCache.FasterEngineFindsSlowerRoute | apps/router/engine/assfire/router/engine/DefaultRedisSerializer.hpp:16 | two speeds printed alike: the engine of one finds the route of the other, a second longer, under its own key |
| RedisCache.KeysAgreeIff | apps/router/engine/assfire/router/engine/DefaultRedisSerializer.hpp:13-29 | with such a stream, two engines look up one key if and only if it is for the same pair and they agree in type, flag, geometry and nearest thousandth of the speed |
| RedisCache.FarSpeedsShareNoKey | apps/router/engine/assfire/router/engine/DefaultRedisSerializer.hpp:13-29 | with such a stream, engines whose speeds differ by more than 0.001 have no key in common |
| RedisCache.CacheStore.Get | apps/router/engine/assfire/router/engine/impl/route_provider_engines/CppRedisCacheConnector.cpp:52-69 | a get reports an error, an absent key, or the stored payload |
| RedisCache.CacheStore.Put | apps/router/engine/assfire/router/engine/impl/route_provider_engines/CppRedisCacheConnector.cpp:43-50 | a put is stored or lost, and has been sent in any case |
| RedisCache.RedisRouteProviderEngine.RetrieveSingleRouteDetails | apps/router/engine/assfire/router/engine/impl/route_provider_engines/RedisRouteProviderEngine.cpp:38-82 | on a store faithful to its engines, with lost writes and failing reads: the backend is asked on forced updates and misses and gives the answer, which is sent to the store under the pair's key if it is a route; otherwise the answer is the text round trip of the backend's for that very pair; the store takes a step of this engine or none |
| RedisCache.RedisRouteProviderEngine.GetSingleRouteInfo | apps/router/engine/assfire/router/engine/impl/route_provider_engines/RedisRouteProviderEngine.cpp:26-30 | the same, clause by clause, for the summary |
| Matrices.FlatIsInjective | apps/router/api/assfire/router/api/Matrix.hpp:16 | different cells have different places in the flat buffer |
| Matrices.Matrix.constructor | apps/router/api/assfire/router/api/Matrix.hpp:11-19 | every cell holds what the supplier gives for it |
| Matrices.Matrix.Set | apps/router/api/assfire/router/api/Matrix.hpp:27-29 | writing a cell changes that cell only |
| DistanceMatrixEngines.DirectInfoIsSummary | apps/router/api/assfire/router/api/distance_matrix_engines/DirectRequestDistanceMatrixEngine.cpp:29-43 | the plain engine's short answer is the summary of its long one, under either policy |
| DistanceMatrixEngines.DirectRequestDistanceMatrixEngine.GetRouteDetails | apps/router/api/assfire/router/api/distance_matrix_engines/DirectRequestDistanceMatrixEngine.cpp:37-57 | the plain engine gives the backend's route; without one, 1000000000.0 meters, 3600000000 seconds and the two places under return-infinity, and a failure under throw |
| DistanceMatrixEngines.DirectRequestDistanceMatrixEngine.GetRouteInfo | apps/router/api/assfire/router/api/distance_matrix_engines/DirectRequestDistanceMatrixEngine.cpp:29-57 | the same numbers for the short answer |
| DistanceMatrixEngines.ShortAnswersAgree | apps/router/api/assfire/router/api/distance_matrix_engines/DirectRequestDistanceMatrixEngine.cpp:29-43 | the two answers of the plain engine fail together or have the same distance and duration |
| DistanceMatrixEngines.RepresentsItselfIff | apps/router/api/assfire/router/api/distance_matrix_engines/FullMatrixCacheDistanceMatrixEngine.cpp:17-22 | a location is looked up as itself exactly when no other known location has its key |
| DistanceMatrixEngines.FullMatrixCacheDistanceMatrixEngine.AddLocation | apps/router/api/assfire/router/api/distance_matrix_engines/FullMatrixCacheDistanceMatrixEngine.cpp:43-54 | a location keeps its place once added; a new one gets the next; the cache stays right |
| DistanceMatrixEngines.AddedIsIssued | apps/router/api/assfire/router/api/distance_matrix_engines/FullMatrixCacheDistanceMatrixEngine.cpp:43-54 | indexed locations handed out stay valid however many are added |
| DistanceMatrixEngines.FullMatrixCacheDistanceMatrixEngine.Supply | apps/router/api/assfire/router/api/distance_matrix_engines/FullMatrixCacheDistanceMatrixEngine.cpp:59-73 | a cell is taken over from the old matrix, 0 meters and 0 seconds on the diagonal, or the requested route; where the request fails, 1000000000.0 meters and 3600000000 seconds between the two places, or a failure |
| DistanceMatrixEngines.GrowthRequests | apps/router/api/assfire/router/api/distance_matrix_engines/FullMatrixCacheDistanceMatrixEngine.cpp:59-73 | growing the matrix from r to n locations requests exactly n(n-1) - r(r-1) routes |
| DistanceMatrixEngines.FullMatrixCacheDistanceMatrixEngine.Rebuild | apps/router/api/assfire/router/api/distance_matrix_engines/FullMatrixCacheDistanceMatrixEngine.cpp:59-73 | the new matrix is right in every cell and has cost exactly the missing requests, or the filling ends because a missing route cannot be found |
| DistanceMatrixEngines.FullMatrixCacheDistanceMatrixEngine.Initialize | apps/router/api/assfire/router/api/distance_matrix_engines/FullMatrixCacheDistanceMatrixEngine.cpp:56-77 | rebuilding keeps every cell right and counts its requests; it fails, keeping the old cache, exactly when errors are thrown and a missing route cannot be found |
| DistanceMatrixEngines.FullMatrixCacheDistanceMatrixEngine.GetCachedRouteDetails | apps/router/api/assfire/router/api/distance_matrix_engines/FullMatrixCacheDistanceMatrixEngine.cpp:87-90 | a cached lookup gives such a cell, or fails for a lacking route; under the return-infinity policy n known locations have then cost exactly n(n-1) requests |
| DistanceMatrixEngines.FullMatrixCacheDistanceMatrixEngine.GetRouteDetails | apps/router/api/assfire/router/api/distance_matrix_engines/FullMatrixCacheDistanceMatrixEngine.cpp:30-41 | known pairs are answered from the cache, others with the backend's route, or without one with 1000000000.0 meters and 3600000000 seconds between the two places, or a failure |
| DistanceMatrixEngines.FullMatrixCacheDistanceMatrixEngine.GetRouteInfo | apps/router/api/assfire/router/api/distance_matrix_engines/FullMatrixCacheDistanceMatrixEngine.cpp:17-28 | the same distances and durations for the short answer |
| DistanceMatrixEngines.FullMatrixCacheDistanceMatrixEngine.GetIndexedRouteDetails | apps/router/api/assfire/router/api/distance_matrix_engines/FullMatrixCacheDistanceMatrixEngine.cpp:12-15 | an indexed lookup answers like the lookup of its raw locations |
| DistanceMatrixEngines.FullMatrixCacheDistanceMatrixEngine.GetIndexedRouteInfo | apps/router/api/assfire/router/api/distance_matrix_engines/FullMatrixCacheDistanceMatrixEngine.cpp:7-10 | the same distances and durations for the short answer |
| DistanceMatrixEngines.MissingRouteFailsOthers | apps/router/api/assfire/router/api/distance_matrix_engines/FullMatrixCacheDistanceMatrixEngine.cpp:56-90 | a backend without one route, for which the cache fails for another that the plain engine finds |
| DistanceMatrixEngines.CacheAnswersDirectly | apps/router/api/assfire/router/api/distance_matrix_engines/DirectRequestDistanceMatrixEngine.cpp:29-43 | what the cache answers for known locations without collisions is what the plain engine answers under the same policy |
| DistanceMatrixEngines.AlwaysDirectIffNoCollision | apps/router/api/assfire/router/api/distance_matrix_engines/FullMatrixCacheDistanceMatrixEngine.cpp:79-81 | the cached routes of a location are its own, whatever the backend, if and only if no other known location has its key |
| BatchClient.DistinctListsEachOnce | apps/router/client/assfire/router/client/GrpcRouteProviderEngine.cpp:76-92 | the request lists exactly the given locations, each once |
| BatchClient.DistinctKeepsOrder | apps/router/client/assfire/router/client/GrpcRouteProviderEngine.cpp:76-92 | in the order of their first occurrences |
| BatchClient.GrpcRouteProviderEngine.MapLocations | apps/router/client/assfire/router/client/GrpcRouteProviderEngine.cpp:76-83 | one loop builds the distinct list and a mapping that lists just the places of each location |
| BatchClient.GrpcRouteProviderEngine.FanOut | apps/router/client/assfire/router/client/GrpcRouteProviderEngine.cpp:117-127 | one answer is written to all places of its pair, zero where the places are equal, and nowhere else |
| BatchClient.CellHoldsOwnAnswer | apps/router/client/assfire/router/client/GrpcRouteProviderEngine.cpp:107-128 | with at most one answer a pair, a cell off the diagonal holds its own pair's answer, infinity without one, and an answered cell on the diagonal is zero |
| BatchClient.BatchAgreesIff | apps/router/client/assfire/router/client/GrpcRouteProviderEngine.cpp:70-131 | with every pair answered, the batch agrees with single requests if and only if the routes between equal places of the two lists are zero |
| BatchClient.BatchLosesRoutesInTheSamePlace | apps/router/client/assfire/router/client/GrpcRouteProviderEngine.cpp:121-123 | a batch of one origin and one destination with a route between them does not |
| BatchClient.GrpcRouteProviderEngine.GetRouteInfoMatrix | apps/router/client/assfire/router/client/GrpcRouteProviderEngine.cpp:70-131 | the request carries the distinct locations; the last reply decides, and without any reply it throws; each cell is that of the reply's answers |

## Left out

- Scheduling.LinearWaybillSchedulingAlgorithm.ScheduleWaybill: 64-bit overflow near the infinite time point, and an exception of the distance matrix in the middle of a pass, are not modelled.
- Scheduling.BilinearWaybillSchedulingAlgorithm.ScheduleWaybill: the same; the end of the work shift is never read by either scheduler, so nothing is claimed about it.
- TwoOptSession.TwoOptTspAlgorithm.SolveTsp: needs two points, since the source's first move is out of range with fewer, and a checkpoint whose indices denote a stretch, as every checkpoint written by the algorithm does; an exception of the cost function, which ends the run without a checkpoint, is not modelled.
- Tours.Estimate: an empty sequence, for which the source's unsigned loop bound wraps around.
- RedisSerializer.DetailsRoundTrip: the digits of a printed floating-point distance; printing and scanning it are parameters that give back the number as the default precision keeps it.
- DistanceMatrixEngines.FullMatrixCacheDistanceMatrixEngine.Initialize: the mutex and lookups in other threads during a rebuild; tags shared by different engines.
- TwoOptTightness.CostsGuaranteeIff: is exact for what the number of costs can guarantee; which single cost functions with more costs lead to a locally optimal order is not characterised.
- RedisSerializer.SuffixesAgreeIff: floating-point rounding in the multiplication and division by the precision.
- RedisSerializer.SpeedsToldApartIff: supposes that the stream prints thousandths up to some limit differently, as the default precision of six digits does below 1000 m/s; the digits are not modelled.
- ControllerProtocol.ExclusionHolds: the data race on the future object when one thread stores its future while another, launched in between, waits for it; storing and waiting are single steps.
- WorkerAttempts.RetriesAreBounded: a store whose attempts key is deleted or set from outside.
- WorkerProtocol.EveryAcquireIsReleased: a crash and an exception outside the try block or from the error handler, after which the lock stays taken, as it has no expiry.
- WorkerProtocol.ExclusiveKept: an exception of the redis library after its command has been carried out; thrown by an early unlock, it would make the worker unlock a second time what another may hold by then.
- WorkerCallbacks.LateCallbackLosesSavedState: a late callback refers to local variables of the worker's loop that may be gone, which is undefined in the source; the model lets it go on with the task it was copied for.
- FinishedTasks.FinishedTaskIsNotRerun: leaves out the server's own write, failures of the very check for FINISHED and exceptions of the unlock after it, each of which undoes FINISHED from every state with a free lock.
- WorkerTransparency.FinalSolutionsAreTransparent: is about sessions that solve with the 2-opt algorithm; the stored task and its cost stay the same for a task id.
- TaskProvider.RedisTaskProvider.SendStatusSignal: the expiry of the keep-alive key.
- The worker's loop as one method: it appears as the steps of `WorkerProtocol`, because other workers, callbacks and task bodies interleave with it.
- A pause that races with a launch and is lost, and costs that rise across a resume which restarted the search.
- Route formulas (crowflight, Euclidean, random, OSRM) and floating-point rounding.
- `getRouteDetailsMatrix` of the batch client, and merging several streamed replies (the last one wins, as in the source).
- gRPC, AMQP and redis transport, protobuf translators, the Go servers, logging, metrics, mains, deployment and the map UI: one-to-one copies and I/O.
- `TimeWastingTspAlgorithm`: sleeps and random costs.

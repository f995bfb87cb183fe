# A verified model of the emergency dispatcher

The server receives emergencies, queues them by priority, and lets worker threads
find rescuers for them, preempting less important work where needed. An updater
thread moves the rescuers one tick at a time, ages the timers, and completes,
promotes and times out emergencies. This project models that machinery in Dafny 4.11
and proves what it keeps, under every schedule of its threads.

`dafny verify dfyconfig.toml` checks everything.

## How it is built

| files | what they hold |
|---|---|
| `Common`, `Bresenham`, `PriorityTable`, `Urgency` | shared vocabulary; the speed-limited line walker; the priority table; timers and deadlines |
| `QueueSpec`, `LinkedList`, `PriorityQueue` | the multi-level queue: a sequence of FIFO sequences, and the linked lists that refine it |
| `WaitingPasses` | the expiry and promotion passes over that queue, as loops and in closed form |
| `Domain`, `Sortie` | twins and emergencies as values; where a twin is and how long a sortie takes |
| `Selection`, `Dispatcher` | which twins a search picks; preemption, dispatch, and the two ticks |
| `Accounting`, `Ledger`, `Dispatch` | the books (required = missing + en route + on scene + finished) and why every operation keeps them |
| `World` | one update of the world, and a new emergency; everything that holds while the system lock is free |
| `Server`, `Custody`, `Protocol`, `Steps` | the server as a state machine with one atomic step per critical section; conservation; the invariant; what one step can do to a twin and to an emergency |
| `Runs`, `RunTimes` | what holds along every run |
| `Turns`, `Choosing` | what each turn of each thread does in every reachable state, told in the fields of the records: acceptance, service order, timers, twins, workers; and whom a search takes |
| `Outcomes` | exactly when an emergency completes, and what becomes of the worker of one that is preempted |
| `PassRefinement` | the updater's steps in the state machine are the passes of `WaitingPasses` |
| `Records`, `Station` | twins, emergencies and the server as objects changed in place, loop by loop, each method proved against the functions above |
| `LockOrder`, `ClockHandshake`, `QueueHandshake` | mutexes, the tick handshake, and the workers asleep on the queue |
| `Pitfalls` | a small town, and one run of it from the server's start: a theft, a twin that goes astray, a search that overruns its candidates |

Records refer to each other by index into one store, as the program's records refer to
each other by pointer. A twin's `served` and an emergency's `log` are history the
server does not keep: the updates a twin has spent on its present scene, and the twins
that have finished there.

A run is a schedule: a sequence of turns saying which thread takes its next step (the
receiver's turn carries the request it would read). A turn that cannot be taken changes
nothing. A worker asleep on a condition variable may wake without a signal.

## Where the program does not do what one might expect

* **A preempted emergency never completes.** Nothing takes it out of PAUSED, not even a
  successful new search, and the updater looks at PAUSED before it looks at completion.
  The repository's README (lines 177-182) presents preemption as a pause from which the
  emergency recovers once it has its rescuers back; the code is followed.
  `Runs.PausedNeverCompletes`. Its worker is lost with it: it searches, tests and resumes
  over and over, never sleeping, until some search fails. `Outcomes.StuckStep`,
  `Outcomes.PausedKeepsItsWorker`.
* **A search can read past its candidates.** A twin that finishes empties its slot
  without anyone being missing for it, and dispatch wants a candidate for every empty
  slot. `Dispatch.SearchOutcome` says exactly when, in terms of the counters and slots the
  server has before the search; `Pitfalls.OverrunHappens` is a run that gets there.
* **A twin redirected to the very cell it is passing through walks on.** Its course is
  left alone, so it is later "on scene" elsewhere. `RunTimes.SentIsAimedUnlessPassing` says
  exactly when; `Pitfalls.PassingTwinGoesAstray` is a run where it happens, and where the
  emergency is completed all the same.
* **An active emergency cannot complete while a promotion is pending.** The update looks at
  the promotion timer before anything else, and tests it before counting it down. With the
  shipped table an emergency that a worker takes while its level 0 timers are fresh is
  promoted at the 61st update and completes at the 62nd at the earliest, however soon its
  rescuers are done. `Urgency.ShippedClimb`, `Outcomes.CompletesExactlyAt`.
* **A paused emergency's timeout timer counts down even when it is off**, and passes
  through the value that means off when it is on. `RunTimes.PausedTimerPassesOff`; the
  consequence for searches is `Dispatch.NobodyInTime`. Waiting emergencies are safe
  from this: `RunTimes.WaitingStep`.

## Model

| member | source | states |
|---|---|---|
| `Bresenham.StepExact` | src/bresenham.c:14-64 | no overshoot: with more than the allowed cells to go, a call ends where exactly that many unit moves end, each one nearer to the target, inside the box and with the exact error, and reports no arrival; otherwise it lands exactly on the target. Which cells the moves visit is said by the four lemmas on the rounded line below |
| `Bresenham.UnitMovesDescend` | src/bresenham.c:43-61 | how far a call goes: as many moves as allowed, each to an adjacent cell one nearer to the target. Which of the two adjacent cells, `Bresenham.SetsOutByDeviation` says |
| `Bresenham.LineFidelity` | src/bresenham.c:43-74 | for any speeds and any splitting over ticks, every visited cell satisfies -(2dx+dy) <= 2(dx*b - dy*a) <= max(dx,dy) |
| `Bresenham.SetsOutByDeviation` | src/bresenham.c:46-60 | how any call sets out, from wherever the last one stopped, by the geometry of the line alone: on x unless the cell diagonally ahead deviates below -dy/2; then at once on y, if a second move is allowed, unless that cell deviates above dx/2 |
| `Bresenham.CallKeepsToRaster` | src/bresenham.c:43-61 | in every call, wherever it starts, of two cells visited in a row at least one is nearest to the ideal line, and from the second on every cell is nearest or halfway between two that are |
| `Bresenham.CallFollowsLine` | src/bresenham.c:43-74 | a call on a course just laid visits the cells of the rounded line between the two points, in order; of any two in a row one satisfies 2*abs(dx*b - dy*a) <= max(dx,dy) |
| `Bresenham.StepFollowsLine` | src/bresenham.c:14-74 | so a first call that falls short ends on the cell of the rounded line that is as many moves away as allowed |
| `Bresenham.LineIsOnePath` | src/bresenham.c:43-61 | the rounded line has one cell for each number of moves, so those lemmas leave a walker no choice |
| `Bresenham.JourneyDescends` | src/bresenham.c:43-64 | every move of a whole journey is a unit move and stays on course: an adjacent cell, one nearer, inside the box, with the exact error |
| `Bresenham.ErrIsDeviation` | src/bresenham.c:46-60 | the saved error is dx - dy plus the deviation from the ideal line, so bounds on one are bounds on the other |
| `Bresenham.Trajectory.ComputeStep` | src/bresenham.c:14-64 | the loop with its two-move body, early break and saved error returns and stores what the step function says |
| `Bresenham.Trajectory.Change` | src/bresenham.c:66-74 | the trajectory becomes the course from the current to the new cell |
| `PriorityTable.GetPriorityLevel` | src/server/main.c:349-366 | the two loops compute the number of lower rows, or level 0 for an unlisted priority |
| `PriorityTable.LevelIsRow` | src/server/main.c:349-366 | the level is a row of the table, and for a listed priority the row that carries it |
| `PriorityTable.LevelIsRowOf` | src/server/main.c:349-366 | row k is the row of a priority (the one that carries it, or the lowest if none does) if and only if k is its level |
| `PriorityTable.NextPriorityClimbs` | src/server/main.c:390-394 | promotion climbs exactly one level and stops at the top |
| `PriorityTable.NextIsNext` | src/server/main.c:390-394 | the next priority is the number of the row above, and at the top the same priority |
| `PriorityTable.ShippedIsValid` | config_server.h:42-47 | the shipped table meets what the theorems ask of a table, and its levels are its priority numbers |
| `Urgency.FreshTimers` | src/server/main.c:380-388 | an accepted emergency starts with the promotion and timeout times of its priority's own row |
| `Urgency.PromoteTimers` | src/server/thread_functions/thread_updater.c:138-144 | a promoted one gets the number, the promotion time and the timeout time of the row above, and one more promotion counted |
| `Urgency.AgeTimeLeft` | src/server/thread_functions/thread_updater.c:163-167 | ageing uses up exactly one update of the deadline and never counts a timer into the value that means off |
| `Urgency.PromoteTimeLeft` | src/server/thread_functions/thread_updater.c:138-144 | promotion costs nothing of the deadline |
| `Urgency.ExpiredWhenNothingLeft` | src/server/thread_functions/thread_updater.c:173-178 | an aged emergency has expired exactly when nothing is left of its deadline along the chain of promotions |
| `Urgency.WaitsExactlyItsDeadline` | src/server/thread_functions/thread_updater.c:163-206 | an emergency no worker takes still waits after n updates if and only if n is below its level's deadline |
| `Urgency.ShippedDeadline` | config_server.h:42-47 | the deadline of each shipped level: 120, 60, 30 |
| `Urgency.ShippedDeadlines` | config_server.h:42-47 | 120, 60 and 30 updates for levels 0, 1 and 2 |
| `Urgency.CountDownClimbs` | src/server/thread_functions/thread_updater.c:146-149 | each update of an active emergency takes one off the updates its chain of promotions still takes, and no promotion is pending exactly when none is left |
| `Urgency.ShippedClimb` | config_server.h:42-47 | that is 61 updates for a fresh level 0 emergency and none for the others |
| `QueueSpec.ExtractFirstIsFirst` | src/priority_queue.c:139-157 | extraction takes the first match in the order of service and nothing else; it fails exactly when nothing matches |
| `QueueSpec.PopIsHead` | src/priority_queue.c:99-137 | pop serves the oldest item of the highest non-empty level; it fails exactly on an empty queue |
| `QueueSpec.PopsHighest` | src/priority_queue.c:112-116 | that is the head of the list of the highest non-empty level, and no other list changes |
| `QueueSpec.PushBag` | src/priority_queue.c:77-96 | a push adds the item once and loses nothing |
| `QueueSpec.DrainIsStableSort` | src/priority_queue.c:77-137 | draining yields the pushes stably sorted by clamped level, highest first |
| `QueueSpec.MapAllOrder` | src/priority_queue.c:159-167 | mapping changes every item in its place |
| `LinkedList.List.PushBack` | src/priority_queue.c:13-22 | the linked list's items gain one at the end, links and count in order |
| `LinkedList.List.PopFront` | src/priority_queue.c:25-35 | the first item leaves, or nothing on an empty list |
| `LinkedList.List.RemoveNode` | src/priority_queue.c:5-10 | exactly the given node's item leaves |
| `PriorityQueue.Queue.Push` | src/priority_queue.c:77-96 | the queue's contents become the pushed ones at the clamped level; a closed queue is unchanged |
| `PriorityQueue.Queue.Pop` | src/priority_queue.c:99-121 | the contents' pop, or nothing when empty; the caller has to wait exactly when the queue is empty and open |
| `PriorityQueue.Queue.TryPop` | src/priority_queue.c:123-137 | the contents' pop, or nothing when empty |
| `PriorityQueue.Queue.ExtractFirst` | src/priority_queue.c:139-157 | the contents' extraction, with links, counts and size kept |
| `PriorityQueue.Queue.MapItems` | src/priority_queue.c:159-167 | every item is replaced by its image, in place |
| `PriorityQueue.Queue.Close` | src/priority_queue.c:69-75 | only the closed flag changes |
| `WaitingPasses.RemoveExpired` | src/server/thread_functions/thread_updater.c:180-189 | the loop ends; each level keeps those not expired, in order, and the cancelled queue's level gains the expired ones, in order |
| `WaitingPasses.PromoteDue` | src/server/thread_functions/thread_updater.c:198-206 | the loop ends; each level keeps what is not due, followed by what is promoted into it from below; everyone is in the list of its own level |
| `WaitingPasses.ExpireOneKeeps` | src/server/thread_functions/thread_updater.c:182-186 | a turn of the expiry loop leaves the closed form where it was, and with nothing expired the queues are the closed form |
| `WaitingPasses.PromoteOneKeeps` | src/server/thread_functions/thread_updater.c:200-203 | the same for a turn of the promotion loop, including the level that gains the promoted one |
| `WaitingPasses.PromoteOneCounts` | src/server/thread_functions/thread_updater.c:200-203 | each turn leaves one fewer due, so the loop ends |
| `PassRefinement.ExpiryPass` | src/server/thread_functions/thread_updater.c:180-189 | in the state machine, the undisturbed updater gets from ageing to promotion with both queues in the closed form of expiry |
| `PassRefinement.PromotionPass` | src/server/thread_functions/thread_updater.c:198-206 | and from there back to waiting for a tick with the queue in the closed form of promotion |
| `Sortie.AdvanceExact` | src/server/thread_functions/thread_updater.c:69-113 | a walking update brings a twin exactly its speed nearer, or onto its target and into the next status |
| `Sortie.TickKeepsPosition` | src/server/thread_functions/thread_updater.c:54-130 | the position invariant survives every update, so the off-map error branch is never taken |
| `Sortie.ArrivalIsCeiling` | src/server/thread_functions/thread_updater.c:69-97 | arriving takes max(1, ceil(s / v)) updates |
| `Sortie.EstimateOffByOne` | src/server/thread_functions/thread_worker.c:97-101 | the search's estimate floor(s / v) is right, exactly when v divides s > 0, or one update short |
| `Sortie.SortieLength` | src/server/thread_functions/thread_updater.c:54-130 | the exact updates at which a twin that is not re-routed arrives, leaves, and is idle on its base |
| `Selection.ComparisonIsByGrade` | src/server/thread_functions/thread_worker.c:119-146 | on twins a search may take, the comparison is the comparison of grades (idle, level, arrival time, on scene): a total preorder |
| `Selection.PrecedenceIsStrictOrder` | src/server/thread_functions/thread_worker.c:119-172 | preference with ties to the lowest index is a strict total order |
| `Selection.BestOfPrecedes` | src/server/thread_functions/thread_worker.c:149-172 | the scan finds an eligible twin that precedes all other eligible ones, or there is none |
| `Selection.GreedyIsOptimal` | src/server/thread_functions/thread_worker.c:218-231 | the repeated scan picks the k best: eligible, in order of precedence, nobody left out precedes a pick, and as many as asked for or as exist |
| `Selection.SearchIsComplete` | src/server/thread_functions/thread_worker.c:216-231 | the search succeeds exactly when every requested type has as many eligible twins as are missing, and picks for each type what it would pick alone; what eligible means in the records' own fields is `Choosing.TakeableIsEligible` |
| `Selection.SearchFinds` | src/server/thread_functions/thread_worker.c:201-242 | the candidates are distinct, as many of each type as are missing, each idle or working for a strictly lower level |
| `Dispatch.SearchOutcome` | src/server/thread_functions/thread_worker.c:201-261 | a search fails exactly when some requested type has fewer eligible twins than are missing; it reads past its candidates exactly when none has, someone is missing, and the emergency has more empty slots than it misses rescuers. `Choosing.SearchTakesTheBest` says the same with the pool written out |
| `Choosing.TakeableIsEligible` | src/server/thread_functions/thread_worker.c:97-113 | a twin not yet flagged is eligible if and only if it is idle, or en route or on scene for an emergency of strictly lower level, not already this emergency's, and, if the timeout is on, distance / speed does not exceed it |
| `Choosing.PoolIsEligible` | src/server/thread_functions/thread_worker.c:149-172 | the eligible twins of a type are all the twins of that type that may be taken, none skipped |
| `Choosing.FirstIsPrecedence` | src/server/thread_functions/thread_worker.c:119-146 | of two twins that may be taken one precedes the other exactly by idle before busy, lower level served, smaller distance / speed, en route before on scene, created first |
| `Choosing.SearchTakesTheBest` | src/server/thread_functions/thread_worker.c:201-261 | in every reachable state a worker's search fails if and only if some type has fewer twins that may be taken than are missing, runs past its candidates if and only if otherwise more slots are empty than rescuers missing, and else sends of each type exactly as many as are missing, each before all that stay behind, each setting out for the scene, and nobody else changes |
| `Dispatch.SpareSlotsMeanFinished` | src/server/thread_functions/thread_updater.c:59-67 | the empty slots are those of the missing rescuers and those of the twins that have finished |
| `Dispatch.FillOverruns` | src/server/thread_functions/thread_worker.c:244-252 | the dispatch loop reads past its candidates exactly when it meets more free slots than there are |
| `Dispatch.FillInOrder` | src/server/thread_functions/thread_worker.c:244-252 | with enough candidates, filled slots stay as they are and the free ones take the candidates in order |
| `Dispatch.StopsInOrder` | src/server/thread_functions/thread_worker.c:244-252 | wherever the dispatch loop stops, for want of slots or of candidates, the free slots have taken the candidates in order and the rest of the emergency is as it was |
| `Dispatch.StopsSending` | src/server/thread_functions/thread_worker.c:244-252 | and exactly the twins that got a slot have been sent |
| `RunTimes.ChosenArriveInTime` | src/server/thread_functions/thread_worker.c:159-163 | a twin the time test lets through is on scene at most one update after the timeout, and one that would be on scene by the timeout is not rejected for time |
| `Dispatch.FindTwins` | src/server/thread_functions/thread_worker.c:244-252 | after a successful search each candidate, idle or of a strictly lower level before, is on its way, and no other twin has changed |
| `Dispatch.FindEmergencies` | src/server/thread_functions/thread_worker.c:177-198 | its own emergency only fills slots and misses nobody; another one changes only by losing twins, is then paused, signalled the first time, and was neither waiting nor completed |
| `Dispatch.FindKeepsBooks` | src/server/thread_functions/thread_worker.c:201-261 | a successful search keeps the books of every emergency and every twin |
| `Dispatch.NobodyInTime` | src/server/thread_functions/thread_worker.c:159-163 | with its timeout timer negative but not at the off value, an emergency that misses anyone finds nobody |
| `Pitfalls.OverrunHappens` | src/server/thread_functions/thread_worker.c:244-252 | a schedule from the start of a concrete server to a state where a worker is about to search and the search reads past its candidates |
| `Pitfalls.TheftHappens` | src/server/thread_functions/thread_worker.c:177-198 | an earlier part of that run: a twin is taken from a level 1 emergency by a level 2 one, and the first is paused |
| `Pitfalls.PassingTwinGoesAstray` | src/server/server_helpers.c:55-65 | the same twin stands on the cell it is sent to, walks on, is on scene elsewhere, and the emergency is completed by it |
| `Ledger.TickTwinKeepsBooks` | src/server/thread_functions/thread_updater.c:54-114 | walking, arriving, serving and finishing keep the books |
| `Ledger.FinishKeepsBooks` | src/server/thread_functions/thread_updater.c:59-67 | a finishing twin is logged with its full time, leaves its one slot, and nothing else moves |
| `Ledger.RobKeepsBooks` | src/server/thread_functions/thread_worker.c:177-198 | preemption keeps the books of the emergency that is robbed |
| `Ledger.JoinKeepsBooks` | src/server/thread_functions/thread_worker.c:245-252 | taking a free slot of an emergency that misses one of the twin's type keeps its books |
| `Ledger.TickEmergencyKeepsBooks` | src/server/thread_functions/thread_updater.c:146-159 | the tick of an active emergency keeps the books; it completes only when nobody is left to wait for |
| `Ledger.DecidesByTwins` | src/server/thread_functions/thread_updater.c:146-159 | an active emergency completes in a tick exactly when its promotion timer is off, it is not paused and every required twin has finished; it gets under way exactly when all that are still required are on scene |
| `World.NewKeepsBooks` | src/server/thread_functions/thread_reciever.c:58-93 | a new emergency's counters and slots balance and disturb nobody else's; its cell, type and timers are `Turns.AcceptedAsRequested` |
| `World.RosterVisitsEachOnce` | src/server/thread_functions/thread_updater.c:42-52 | the nested loops visit every twin, and none twice |
| `World.TickWorldTwins` | src/server/thread_functions/thread_updater.c:42-52 | in one update every twin's own step happens exactly once |
| `World.TickWorldEmergencies` | src/server/thread_functions/thread_updater.c:132-136 | every emergency books its twins' arrivals and finishes, then exactly the active ones tick, each once |
| `Custody.Exclusive` | src/server/thread_functions/thread_worker.c:54-91 | an emergency is in one place only: a queue, a thread's hand, or one worker's slot |
| `Custody.WorkConserves` | src/server/thread_functions/thread_worker.c:5-93 | no step of a worker loses or duplicates an emergency, as long as what ends has completed; that the steps are taken at all is `Turns.TakesTheFirst` and `Turns.WorkerGoesOn` |
| `Custody.UpdateConserves` | src/server/thread_functions/thread_updater.c:180-206 | no step of the updater does |
| `Custody.ReceiveConserves` | src/server/thread_functions/thread_reciever.c:35-37 | no step of the receiver does |
| `Protocol.InitialInvariant` | src/core/parsers/parse_rescuers.c:112-127 | the server starts with its invariant |
| `Pitfalls.TownStarts` | config_server.h:42-47 | a concrete server, with the shipped priority table, that meets what the theorems ask of a start |
| `Protocol.ActKeepsInvariant` | src/server/thread_functions/thread_worker.c:54-91 | whichever thread moves, its step keeps the invariant: sound world, conservation, what each place implies, slots, levels |
| `Steps.TwinStep` | src/server/thread_functions/thread_worker.c:244-252 | a twin moves with the world, or is sent by a search to a strictly higher level, or does not change |
| `Steps.EmergencyStep` | src/server/thread_functions/thread_updater.c:146-159 | in any step an emergency's status follows the status graph, its log only grows, its level never falls, and once completed nothing but its condition variable changes |
| `Runs.RescuerAccounting` | src/server/thread_functions/thread_worker.c:177-261 | in every reachable state, per requested type, required = missing + en route + on scene + finished, and 0 <= not arrived <= not done <= rescuer count are the sums they are named after |
| `Runs.ExclusiveAssignment` | src/server/server_helpers.c:67-73 | in every reachable state a twin at work has exactly one slot of exactly one emergency, its own; any other has none and no emergency |
| `Runs.CompletedIsServed` | src/server/thread_functions/thread_updater.c:59-67 | a completed emergency misses nobody, has no crew left, and for each type exactly the required number of twins stayed their full time |
| `Runs.CompletedForever` | src/server/thread_functions/thread_worker.c:61-80 | completion is never left, in particular no failed search's TIMEOUT overwrites it |
| `Runs.PausedNeverCompletes` | src/server/thread_functions/thread_updater.c:148-154 | paused or timed out, an emergency is one or the other ever after |
| `Runs.EveryEmergencyInOnePlace` | src/server/thread_functions/thread_worker.c:54-91 | in every reachable state every accepted emergency is in exactly one place, once |
| `Runs.PlaceShowsStatus` | src/server/thread_functions/thread_worker.c:22-35 | and the place says what has become of it |
| `Runs.SlotsBelongToWorkers` | src/server/thread_functions/thread_worker.c:5-35 | each slot shows what its own worker works on, and no two slots show the same emergency |
| `Runs.WaitingAtTheirLevel` | src/server/thread_functions/thread_updater.c:198-206 | in every reachable state every emergency in the waiting queue is waiting, and in the list of its own level |
| `Runs.NoLostWakeup` | src/server/thread_functions/thread_worker.c:68-74 | a worker asleep and not signalled has an emergency that is neither paused nor completed, and no other worker holds it |
| `Runs.StepClimbs` | src/server/thread_functions/thread_worker.c:103-113 | while a twin is on duty its emergency's level never falls, and rises when the twin is stolen |
| `Runs.PreemptionClimbs` | src/server/thread_functions/thread_worker.c:177-198 | over any run, a sortie is re-routed at most as often as there are levels above the one it started at, whatever is promoted meanwhile |
| `Turns.AcceptedAsRequested` | src/server/thread_functions/thread_reciever.c:35-93 | in every reachable state in which the receiver has nothing in hand, a valid request adds exactly one emergency, of that type, at that very x and y, waiting, with the type's counts missing, empty slots, and its row's timers; it is in the receiver's hand and nothing else changes |
| `Turns.RefusedChangesNothing` | src/server/thread_functions/thread_reciever.c:28-33 | and one of unknown type or off the map changes nothing |
| `Turns.DeliveredToItsLevel` | src/server/thread_functions/thread_reciever.c:37 | what the receiver has in hand joins the end of the list of its priority's row, and nothing else changes |
| `Turns.OnSceneWhereRequested` | src/server/thread_functions/thread_reciever.c:73-74 | whatever happened before and after the request for (x, y), a twin on scene for its emergency stands on (x, y) if and only if its own last dispatch did not divert it |
| `Turns.TakesTheFirst` | src/server/thread_functions/thread_worker.c:55-57 | in every reachable state a free worker takes the first in the order of service, the oldest of the highest level that has any, the rest keeps its order, and nothing else changes; with nothing there, nothing happens |
| `Turns.TimersGo` | src/server/thread_functions/thread_updater.c:138-167 | in every reachable state and for every turn, how an emergency's priority, timers and promotion count change: one down, unless off, at the ageing of the queue; the next row's number and timers at a promotion, waiting or active; the timeout alone while active and paused; otherwise nothing |
| `Turns.ShippedAccepted` | config_server.h:42-47 | with the shipped table a request of priority 0, 1 or 2 starts with (promotion, timeout) = (60, off), (off, 60), (off, 30) |
| `Turns.ShippedTimers` | config_server.h:42-47 | and one promoted from priority 0 gets priority 1 with (off, 60) |
| `Turns.EveryUpdateAges` | src/server/thread_functions/thread_updater.c:13-36 | in any run, each update of the world is followed by exactly one ageing of the queue before the next |
| `Turns.TwinsGo` | src/server/thread_functions/thread_updater.c:54-130 | in every reachable state an update of the world takes each twin one step on, field by field: idle it stays; underway it walks its speed or arrives; on scene it serves; its time up, it turns home as nobody's and walks its first step |
| `Turns.WorkerGoesOn` | src/server/thread_functions/thread_worker.c:54-91 | in every reachable state, what a worker's turn does to its emergency, its slot and the two final queues: open, give up and file as cancelled, wait, wake, resume, store, close |
| `Turns.CompletedIsStored` | src/server/thread_functions/thread_worker.c:68-91 | under every schedule, a worker whose emergency is completed files it with the completed ones within five turns of its own |
| `Turns.CompletedStaysStored` | src/server/thread_functions/thread_worker.c:22-35 | and nothing leaves the completed queue |
| `RunTimes.WaitingStep` | src/server/thread_functions/thread_updater.c:163-206 | a step uses up one update of a waiting emergency's deadline if it ages the queue, and nothing otherwise |
| `RunTimes.BoundedWaiting` | src/server/thread_functions/thread_updater.c:163-206 | in any run, an emergency that is still waiting has been aged at most as often as its level's deadline says, and less often between two updates |
| `RunTimes.WaitsExactlyAlongRun` | src/server/thread_functions/thread_updater.c:163-206 | in any run in which no worker takes it, a freshly queued emergency is in the queue or cancelled, and between two updates it is still in the queue if and only if it has been aged less often than its level's deadline says |
| `RunTimes.AcceptedWaitsBounded` | src/server/thread_functions/thread_reciever.c:35-37 | from the server's start: whatever the receiver accepts is delivered with fresh timers, and while it waits it is aged at most as often as the deadline of its type's priority |
| `RunTimes.ShippedWaitsBounded` | config_server.h:42-47 | with the shipped table that is 120, 60 or 30 times |
| `RunTimes.PassesMissNobody` | src/server/thread_functions/thread_updater.c:180-206 | whatever the other threads do during the passes: once the expiry pass is over nobody who waits has expired, and between two cycles nobody is due either |
| `RunTimes.PausedTimerPassesOff` | src/server/thread_functions/thread_updater.c:150-151 | while paused, a timeout timer counts down on or off, and equals the off value exactly at the update where its count gets there |
| `RunTimes.SortieAlongRun` | src/server/thread_functions/thread_updater.c:54-130 | the exact length of a sortie in any run that does not re-route the twin |
| `RunTimes.PositionInvariant` | src/server/thread_functions/thread_updater.c:54-130 | in every reachable state: inside the map, idle on the base, returning to the base, on scene on the target, and off the target with the exact error of the line |
| `RunTimes.SentIsAimedUnlessPassing` | src/server/server_helpers.c:55-65 | a newly sent twin heads for its scene exactly when it is not just passing through that cell |
| `RunTimes.OnSceneMeansThere` | src/server/server_helpers.c:55-65 | in every reachable state a twin on scene stands on the cell of its emergency if and only if its own last dispatch did not meet it just passing through that cell |
| `Outcomes.CompletesExactlyAt` | src/server/thread_functions/thread_updater.c:146-159 | under every schedule: once a search has sent everyone, the emergency is completed after n updates of the world if and only if no search has taken one of its twins since and n is at least its completion time, the larger of the last update at which one of its twins leaves and the one after its last promotion |
| `Outcomes.RobbedNeverCompletes` | src/server/thread_functions/thread_worker.c:177-198 | and if a search does take one of its twins, it is paused or timed out ever after |
| `Outcomes.TopCompletesExactlyAt` | src/server/thread_functions/thread_worker.c:103-113 | at the highest level, under every schedule, it is completed exactly from the update at which the last of its twins leaves |
| `Outcomes.LatestIsMaximum` | src/server/thread_functions/thread_updater.c:54-130 | the last update at which a twin leaves is the largest, over its twins, of the updates to arrive plus those to stay: no twin needs more, and any number that none exceeds is at least it |
| `Outcomes.SearchLaunches` | src/server/thread_functions/thread_worker.c:244-261 | a first search that succeeds leaves the emergency as that theorem asks |
| `Outcomes.StuckStep` | src/server/thread_functions/thread_worker.c:59-80 | a worker with a paused emergency stays with it in the search loop, and does not sleep at its own step, unless its search lacks rescuers |
| `Outcomes.PausedKeepsItsWorker` | src/server/thread_functions/thread_worker.c:59-80 | over any run, it is still there or some search of its own has failed |
| `LockOrder.TakesInOrder` | src/server/server_helpers.c:30-43 | a thread wants only a mutex above all it holds, and sleeps on a condition holding none |
| `LockOrder.NoWaitCycle` | src/server/server_helpers.c:5-43 | no state of any run, with any number of threads, has a cycle of threads each waiting for a mutex the next one has |
| `LockOrder.NoDeadlock` | src/server/server_helpers.c:5-43 | whenever a thread waits for a mutex, some thread that holds one can take its next step |
| `LockOrder.WantsUnder` | src/server/thread_functions/thread_worker.c:22-35 | a worker files an emergency holding exactly the lock on the active ones, and those are locked inside a section only under the system lock; the outermost mutexes are wanted holding nothing |
| `LockOrder.RunsThrough` | src/server/server_helpers.c:5-43 | every section of every role can be run from any point to its end by a thread left alone, sleeping or not at its condition |
| `ClockHandshake.NoTickMissed` | src/server/thread_functions/thread_updater.c:14-23 | a parked updater has missed no tick, and updates never exceed ticks |
| `ClockHandshake.EveryTickIsSeen` | src/server/thread_functions/thread_clock.c:5-20 | after every tick, two more steps of the updater suffice to start an update, and to finish one if the tick was still unseen, whatever the clock does in between |
| `ClockHandshake.Clock.Tick` | src/server/thread_functions/thread_clock.c:26-31 | the flag is set and the tick counted |
| `ClockHandshake.Clock.Untick` | src/server/thread_functions/thread_updater.c:15-23 | the updater goes on, and clears the flag, exactly when it is set |
| `QueueHandshake.NoWorkerOversleeps` | src/priority_queue.c:77-121 | in every state of every run, while a worker sleeps on the queue at least as many woken workers are on their way as there are items |
| `QueueHandshake.EveryItemOnce` | src/priority_queue.c:77-157 | in every state of every run, items pushed = items in the queue + those extracted + the looks of awake workers that found something; and a worker goes to sleep exactly when it looks at an empty queue |
| `Records.RequestIndex` | src/core/utils/structs.c:29-34 | the first request of the rescuer type, or none |
| `Records.EmergencyRecord.TwinIndex` | src/core/utils/structs.c:36-44 | the first slot of the twin, or none |
| `Records.EmergencyRecord.RemoveTwin` | src/server/server_helpers.c:67-73 | the twin's slot becomes empty, no other changes |
| `Records.EmergencyRecord.Rob` | src/server/thread_functions/thread_worker.c:177-198 | one more of the type missing, one fewer arrived if it had, its slot empty; paused and signalled unless already paused |
| `Records.EmergencyRecord.PromoteNow` | src/server/thread_functions/thread_updater.c:138-144 | the priority of the next row, exactly that row's promotion and timeout times, one more promotion |
| `Records.EmergencyRecord.TickActive` | src/server/thread_functions/thread_updater.c:146-159 | the nested branches do what the tick function says |
| `Records.EmergencyRecord.AgeWaiting` | src/server/thread_functions/thread_updater.c:163-167 | both timers count down unless off |
| `Records.EmergencyRecord.constructor` | src/server/thread_functions/thread_reciever.c:58-93 | the new record is waiting on the requested cell with its type, its priority and that row's timers, and shows the new emergency, its loops adding up and copying the requests |
| `Records.DigitalTwin.constructor` | src/core/parsers/parse_rescuers.c:112-127 | a new twin is idle on its base |
| `Records.DigitalTwin.ChangeDestination` | src/server/server_helpers.c:55-65 | a twin already on the cell keeps its course, any other is aimed at it |
| `Records.DigitalTwin.SendToScene` | src/server/thread_functions/thread_worker.c:263-283 | the twin is on its way to the emergency, unless it already works there |
| `Records.DigitalTwin.SendBack` | src/server/thread_functions/thread_updater.c:116-130 | the twin turns to its base, unless it is there or on its way |
| `Records.DigitalTwin.Walk` | src/server/thread_functions/thread_updater.c:69-113 | the twin walks its step and notes its arrival |
| `Station.Server.IsPreemptableOrAvailable` | src/server/thread_functions/thread_worker.c:103-113 | true if and only if the twin is idle, or en route or on scene for an emergency of strictly lower level |
| `Station.Server.Compare` | src/server/thread_functions/thread_worker.c:119-146 | the comparison the selection theorems are about |
| `Station.Server.FindBestTwin` | src/server/thread_functions/thread_worker.c:149-172 | the loop over the type's twins finds the best one not flagged |
| `Station.Server.Pick` | src/server/thread_functions/thread_worker.c:223-228 | the inner loop flags and collects the greedy choice |
| `Station.Server.Collect` | src/server/thread_functions/thread_worker.c:216-235 | the loops find the search's candidates or fail, and leave no twin flagged |
| `Station.Server.PreemptIfNeeded` | src/server/thread_functions/thread_worker.c:177-198 | only the emergency the twin worked for changes |
| `Station.Server.DispatchAll` | src/server/thread_functions/thread_worker.c:244-252 | the loop over the slots fills every free one with the next candidate, or stops at the first it has none for and says so |
| `Station.Server.FindRescuers` | src/server/thread_functions/thread_worker.c:201-261 | for every search: on failure no record changes, on success the new state is the one the theorems speak of, and one that runs out of candidates stops with the free slots before that point filled; no flag is left |
| `Station.Server.TickTwin` | src/server/thread_functions/thread_updater.c:54-114 | the update of one twin and of the emergency it works for |
| `Station.Server.UpdateRescuers` | src/server/thread_functions/thread_updater.c:42-52 | the nested loops update every twin in order |
| `Station.Server.UpdateWorld` | src/server/thread_functions/thread_updater.c:28-32 | the updater's critical section does what one update of the world says |
| `Station.Server.AddEmergency` | src/server/thread_functions/thread_reciever.c:36 | the store gains one new record at its end, of the requested type on the requested cell; the other records stay |

## Left out

- The message queue, shared memory, semaphores, signals, process start and stop, and the client: I/O and plumbing. A request reaches the model already parsed, as an emergency type and a cell.
- Parsing and configuration files: what a valid configuration promises is `Domain.ValidConfig` and `Server.Initial` (ascending priority table, speed and service time at least 1, rescuer types distinct within an emergency type, each twin listed once under its type). The parsers accept cells on the far edge of the map, which the updater treats as off the map; the model takes cells strictly inside.
- Logging, JSON and ASCII output: no effect on the state. The logger's own mutexes are not part of the lock order.
- What happens once the server is told to stop, including the second storing of an emergency on that path: runs end there. So CANCELED never occurs.
- Look: a search that would read past its candidates is a turn that changes nothing, because the program's behaviour there is undefined; `Dispatch.SearchOutcome` says exactly which searches these are.
- FindRescuers: where the program would read past its candidate array the method stops and reports it; what the program does with the value it reads there is undefined.
- Pop: the method reports that its caller has to wait instead of sleeping. Waiting on the empty queue is a worker's turn that changes nothing in the state machine (`Server.Take`); `QueueHandshake` models the sleeping and the signals on their own.
- BoundedWaiting: bounds the updates an emergency waits in the queue, not real time, and says nothing of how soon a worker takes it. The same goes for AcceptedWaitsBounded.
- ExpiryPass: the closed form is of a pass during which no other thread touches the queue; with other threads at work, `RunTimes.PassesMissNobody` says what the pass achieves and `RunTimes.WaitsExactlyAlongRun` whom it cancels.
- PromotionPass: likewise.
- NoDeadlock: about mutexes only; that sleepers are woken is `Runs.NoLostWakeup`, `QueueHandshake.NoWorkerOversleeps` and `ClockHandshake.NoTickMissed`.
- The clock is not part of the state machine: the updater may begin a cycle at any turn, which covers every timing of the ticks. `ClockHandshake` models the handshake on its own.
- Integer width: coordinates, counters and priorities are unbounded, where the program has int and short.
- DigitalTwin.constructor: the program leaves a new twin's trajectory uninitialised until its first destination; the model's starts as the course from the base to itself.
- The fields is_travelling and has_arrived, which are written but decide nothing, and the time and tick stamps of an emergency.
- Memory freeing and allocation failure.
- The waiting queue and the store hold indices in the state machine and whole emergencies in `WaitingPasses`; `PassRefinement` connects the two.

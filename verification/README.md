# Verified model of the SCE213 operating-system assignments

Four cores of the repository, modelled in Dafny with their central promises proved.

**Blocking semaphores and the bounded ring buffer (PA3).** `Semaphores` takes a counting
semaphore apart into its atomic steps: the compare-and-swap on the spin word, the counter update
with the queue operation, the clearing of the word, the sending and the receipt of the wake-up
signal. Any number of threads interleave in any order. `SemClients` adds clients that release
only what they were granted. `RingProtocol` puts the producers, the consumer and the buffer on
top, `RingProgress` proves that the whole never deadlocks and finishes under every fair schedule,
`RingProgram` says what each thread does in which order, `RingConservation` that nothing is lost
or duplicated. `RingMachine` is the same protocol as objects updated in place; each action is
proved to be one step of the model.

**The tick-driven scheduler (PA2).** `SchedModel` gives the FIFO, priority, priority-ceiling and
priority-inheritance policies and the framework's loop as functions. `SchedSafety` has the
invariant over whole runs, `SchedService` what the framework's loops achieve, `SchedProgress` the
termination measure, `SchedCompletion` the ordered scripts, `SchedDispatch` the choice and
rotation of processes, `SchedTurn` whole turns, the clock and the order of starting. `SchedPip`
proves inheritance for scripts that hold one resource at a time, `SchedExact` says for all scripts
exactly when it works, `SchedPcp` says the same of the ceiling, and `SchedExamples` has two
scripts on which they fail. `SchedMachine` is the simulator in the source's form, with process
objects, lists and scanning loops, proved equal to those functions up to the main loop, whose
termination is proved there.

**Copy-on-write virtual memory (PA4).** `VmModel` has the operations on page tables and map
counts with their invariant, `VmRefinement` proves that they behave like a world in which every
process owns its memory, `VmFrames` says which frame every page is in after every command, and
`VmKernel` has the two-level tables as arrays updated in place.

**Intrusive circular lists (list_head.h).** `ListHead` proves the pointer operations against
sequences of nodes. The other parts keep their queues as sequences on the strength of this.

`Collections`, `Sums` and `Modulo` hold what the parts share. `dafny verify dfyconfig.toml` checks
the whole project.

## What the proofs found

* `alloc_page` documents a result of -1 when no frame is free (sce213-pa4-2020s/pa4.c:60); the
  code maps frame 0 without counting it. The model follows the code: `VmModel.AllocWhenFull`
  says what happens, `VmModel.AllocKeepsInvIff`, `VmModel.FaultKeepsInvIff` and
  `VmRefinement.WriteRefinesIff` say exactly when one operation keeps the promises and
  `VmRefinement.ScriptKeepsInvIff` when a whole script does, and `VmRefinement.FullMemoryIsReached`
  is a script from boot after which they are broken.
* Priority inheritance, as sce213-pa2-2020s/README.md:63-66 asks for it, is not what the code gives
  to processes that request something while they hold something. Three branches can fail: the
  release resets the owner to its original priority, whatever it still holds
  (sce213-pa2-2020s/pa2.c:464); a blocking process raises the owner it waits for but not whoever
  that one waits for (sce213-pa2-2020s/pa2.c:534-535); and taking a freed resource does not look at
  those who still wait for it, one of whom may have been raised since
  (sce213-pa2-2020s/pa2.c:524-528). `SchedExamples.InheritanceLost` is a run in which it goes
  wrong. `SchedExact` has the condition of each branch on the state before it, and
  `SchedExact.RunExactIff` that a run is right throughout exactly when every move meets its own.
* Nor does the priority ceiling keep a process from blocking: a release takes the ceiling off an
  owner that still holds something else (sce213-pa2-2020s/pa2.c:464), as in
  `SchedExamples.CeilingBlocks`. `SchedPcp.ReleaseAtCeilingIff` and `SchedPcp.RunCeilingIff` say
  exactly when it does work, for a release and for a run.
* An access flag with both bits set passes the check at sce213-pa4-2020s/vm.c:137, which is a
  bitwise exclusive or of two different bits; the walk then treats the access as a read. The
  model takes any flag and does the same.

## Conventions

Frames carry contents in the PA4 model (`memory`), copied when a shared page gets a frame of its
own; the simulator has no contents. Histories (`arrivals`, `grants`, `written`, `taken`) are
recorded and never read by a step. Processes in the PA2 model are indices into a table, and
`link` is the list a process's node is linked into. Integers are unbounded: every counter in the
source that could wrap is bounded by the invariants or counts steps of a finite run.

## Model

| member | source | states |
|---|---|---|
| Semaphores.StepKeepsInv | sce213-pa3-2020s/pa3.c:137-183 | every atomic step of any thread keeps: one thread at most between winning and clearing a spin word, queue records live, one waker per sleeper, counter and queue in agreement |
| Semaphores.ReleaseFindsSleeper | sce213-pa3-2020s/pa3.c:170-174 | when the incremented counter is not positive the queue is not empty, so the release never returns with the spin word taken |
| Semaphores.RunKeepsInv | sce213-pa3-2020s/pa3.c:137-183 | the invariant holds after any interleaving of any calls by any clients |
| Semaphores.FirstComeFirstServed | sce213-pa3-2020s/pa3.c:137-183 | in every run permits are granted in the order of the decrements, and their number is the smaller of the arrivals and the initial count plus the releases |
| Semaphores.NoLostOrDoubleWakeup | sce213-pa3-2020s/pa3.c:143-150 | a pending signal is for a dequeued thread still asleep that nobody signals again, and a sleeper is queued, about to be signalled, or signalled |
| Semaphores.InsideStalledMeansUnsignalled | sce213-pa3-2020s/pa3.c:141-151 | inside a call, only a sleeper without a signal cannot move |
| Semaphores.StuckMeansQueued | sce213-pa3-2020s/pa3.c:137-183 | when nobody inside a call can move, all spin words are free and all of them sleep in the queue they wait for |
| Semaphores.OutsideStalledMeansHeld | sce213-pa3-2020s/pa3.c:141 | a thread is kept out of a call only by a taken spin word |
| Semaphores.SignalsOutsideTheWord | sce213-pa3-2020s/pa3.c:174-179 | a signal goes out only after the spin word is cleared, to a thread that has gone to sleep, and ends the release |
| SemClients.AtMostCount | sce213-pa3-2020s/pa3.c:137-183 | in every run of clients that release only what they were granted, at most the initial count of permits are out; with an initial count of one, at most one thread is between acquire and release |
| RingProtocol.MutualExclusion | sce213-pa3-2020s/pa3.c:212-217 | two threads never own the buffer mutex at once |
| RingProtocol.OneInBuffer | sce213-pa3-2020s/pa3.c:214-215 | at most one thread is at a slot access or index advance |
| RingProtocol.SpaceToWrite | sce213-pa3-2020s/pa3.c:210-219 | a producer about to store finds fewer unread values than slots |
| RingProtocol.ValueToRead | sce213-pa3-2020s/pa3.c:231-240 | a consumer about to load finds an unread value |
| RingProtocol.InIsWriteCount | sce213-pa3-2020s/pa3.c:214-215 | a producer's store goes to the number of writes so far modulo the slots |
| RingProtocol.InitInvariant | sce213-pa3-2020s/pa3.c:264-280 | the initial permits 1, N and 0 establish the invariant |
| RingProtocol.StepKeepsInvariant | sce213-pa3-2020s/pa3.c:210-240 | every step of every thread keeps counts, indices and slot contents in agreement |
| RingProtocol.RunInvariant | sce213-pa3-2020s/pa3.c:210-240 | the invariant holds after any interleaving of any number of producers with the consumer |
| RingProtocol.RingIsFifo | sce213-pa3-2020s/pa3.c:210-240 | in every run the values taken are a prefix of the values written, and the slots hold the rest |
| RingProtocol.AccessesAreSafe | sce213-pa3-2020s/pa3.c:214-236 | no unread slot is overwritten, no unwritten slot is read, and the accessing thread is alone |
| RingProgram.FollowsProgram | sce213-pa3-2020s/pa3.c:210-240 | in every run, what each thread has done is its program repeated: wait for a slot or value, enter, access, leave, post |
| RingProgress.StepDecreases | sce213-pa3-2020s/pa3.c:137-240 | every step that is not a failed compare-and-swap or a wait decreases a natural number |
| RingProgress.StuckMeansFinished | sce213-pa3-2020s/pa3.c:137-240 | no deadlock: a state in which nobody can move is one in which everybody is done |
| RingProgress.Unfinished | sce213-pa3-2020s/pa3.c:137-240 | every unfinished state reached has a thread that can move |
| RingProgress.FairRunsFinish | sce213-pa3-2020s/pa3.c:137-240 | under every infinite schedule that lets each thread move again and again, all finish |
| RingProgress.MovesBounded | sce213-pa3-2020s/pa3.c:137-240 | in any schedule the number of effective steps is bounded by the initial measure |
| RingConservation.FinishedRunsAgree | sce213-pa3-2020s/generator.c:80-95 | at the end of any run, for every value, the producers' counts add up to the consumer's, and each producer counted its own values |
| RingConservation.TakenInRange | sce213-pa3-2020s/main.c:58-60 | values in the range checked on the way in are in range on the way out |
| RingConservation.TotalOfEqualRounds | sce213-pa3-2020s/main.c:238 | the consumer's request total is rounds times producers |
| RingMachine.Mutex.constructor | sce213-pa3-2020s/pa3.c:107-115 | a new semaphore with the given count |
| RingMachine.Mutex.CompareAndSwap | sce213-pa3-2020s/pa3.c:141 | takes the word when it is free and reports whether it was taken |
| RingMachine.Mutex.DecrementCounter | sce213-pa3-2020s/pa3.c:142-145 | the counter update of an acquire with the enqueueing |
| RingMachine.Mutex.IncrementCounter | sce213-pa3-2020s/pa3.c:170-181 | the counter update of a release with the choice of the sleeper and of the way on |
| RingMachine.Machine.constructor | sce213-pa3-2020s/pa3.c:264-280 | the objects start in the initial state of the protocol |
| RingMachine.Machine.SemAction | sce213-pa3-2020s/pa3.c:137-183 | one atomic action on the objects is one step of the semaphore model |
| RingMachine.Machine.CallAction | sce213-pa3-2020s/pa3.c:212-217 | an action inside a semaphore call is a step of the protocol |
| RingMachine.Machine.SlotAction | sce213-pa3-2020s/pa3.c:214-235 | the store or load of a slot is a step of the protocol |
| RingMachine.Machine.IndexAction | sce213-pa3-2020s/pa3.c:215-236 | the index advance is a step of the protocol |
| RingMachine.Machine.Action | sce213-pa3-2020s/pa3.c:210-240 | any action of any thread is the step the model prescribes |
| RingMachine.Machine.Execute | sce213-pa3-2020s/pa3.c:210-240 | executing any schedule reaches the state of the model's run, so all theorems about runs apply |
| RingMachine.CollectGenerated | sce213-pa3-2020s/generator.c:136-141 | the table gains, per value, the sum of all producers' counters |
| RingMachine.CompareResults | sce213-pa3-2020s/main.c:188-204 | reports a mismatch if and only if the tables differ |
| RingMachine.FinalReport | sce213-pa3-2020s/main.c:188-209 | after any finished run the final comparison finds no mismatch |
| SchedModel.Top | sce213-pa2-2020s/pa2.c:374-385 | the position found is of the earliest process of highest priority |
| SchedSafety.ForkFromInv | sce213-pa2-2020s/sched.c:231-245 | forking the due processes keeps the invariant |
| SchedSafety.DispatchInv | sce213-pa2-2020s/pa2.c:365-412 | dispatching keeps the invariant and leaves the process chosen running, unfinished and in no list, or an empty ready queue |
| SchedSafety.DispatchedIsUnlisted | sce213-pa2-2020s/sched.c:360-364 | the process chosen is in none of the lists |
| SchedSafety.AcquireFromInv | sce213-pa2-2020s/sched.c:272-292 | serving the due requests keeps the invariant, and either all are granted or the process waits |
| SchedSafety.ReleaseFromInv | sce213-pa2-2020s/sched.c:297-314 | counting down and releasing keeps the invariant |
| SchedSafety.TickInv | sce213-pa2-2020s/sched.c:324-389 | a whole turn keeps: lists, statuses, owners, countdowns, and a ready claimant for every free resource with waiters |
| SchedSafety.StartInv | sce213-pa2-2020s/sched.c:393-402 | every well-formed script starts in the invariant |
| SchedSafety.OnePlace | sce213-pa2-2020s/sched.c:363-364 | in every reachable state a process is in exactly one of the fork queue, the ready queue, one wait queue, the processor, or has exited; no queue has it twice; a current process in a wait queue has the waiting status |
| SchedSafety.OwnersMatchHolders | sce213-pa2-2020s/pa2.c:104-105 | in every reachable state owners are exactly the holders, and a held entry's remaining time is its time from request to age |
| SchedSafety.ExitIsClean | sce213-pa2-2020s/sched.c:250-259 | a process that completes is in no list, holds nothing and has nothing left to request |
| SchedProgress.TickDecreases | sce213-pa2-2020s/sched.c:320-390 | every turn but the last decreases remaining life, then processes not waiting, then the ticks to the last start |
| SchedProgress.ScriptsEnd | sce213-pa2-2020s/sched.c:324-353 | every script ends under every policy, even with circular waits |
| SchedCompletion.NoWaiters | sce213-pa2-2020s/pa2.c:91-137 | when an ordered script goes idle nobody waits for any resource |
| SchedCompletion.OrderedScriptsComplete | sce213-pa2-2020s/sched.c:320-390 | if no process requests a resource numbered at or below one it holds, all processes run to completion |
| SchedTurn.TurnRunsTop | sce213-pa2-2020s/sched.c:328-332 | a whole turn of a priority scheduler runs the earliest of highest priority among the ready, then those forked in the turn, then the process that ran if it may go on; the others stay ready in this order, those woken behind them |
| SchedTurn.TurnRunsFirst | sce213-pa2-2020s/pa2.c:155-199 | a whole FIFO turn goes on with the process that ran if it may, and else runs the first ready or forked one; the others stay in order |
| SchedTurn.TurnDisplaces | sce213-pa2-2020s/pa2.c:365-412 | a process ready or forked in the turn with at least the running one's priority takes the processor in this turn |
| SchedTurn.TurnRuns | sce213-pa2-2020s/sched.c:366-384 | the running process ages one tick with all due requests granted and expired entries given up, or waits, last, for the first resource that was not free; nobody else ages, takes or gives back |
| SchedTurn.LastTurnIff | sce213-pa2-2020s/sched.c:348-353 | the simulation is over exactly when nobody competes and nobody is left to be forked |
| SchedTurn.ClockAndForkQueue | sce213-pa2-2020s/sched.c:386-388 | after i turns of any run the clock shows i and the fork queue holds, in script order, exactly the processes that start at tick i or later |
| SchedTurn.ForkedOnTime | sce213-pa2-2020s/sched.c:231-245 | a process has left the fork queue after turn i if and only if it starts at tick i or before |
| SchedTurn.ForkedInScriptOrder | sce213-pa2-2020s/sched.c:184-189 | those forked in a turn, exactly those that start at its tick, are taken in script order |
| SchedTurn.FifoRunsFirstStarted | sce213-pa2-2020s/sched.c:231-245 | under FIFO the first process to run is the first in the script of those that start first, at its start |
| SchedPip.TakerOutranksWaiters | sce213-pa2-2020s/pa2.c:524-528 | with single-hold uses, whoever takes a freed resource that still has waiters outranks them |
| SchedPip.ReleaseFromPip | sce213-pa2-2020s/pa2.c:457-503 | releases keep every owner at its inherited priority, for single-hold scripts |
| SchedPip.InheritanceIsExact | sce213-pa2-2020s/pa2.c:457-546 | in every reachable state of a single-hold script an owner runs at the maximum of its original and its waiters' priorities, everybody else at the original one |
| SchedExact.GrantExactIff | sce213-pa2-2020s/pa2.c:524-528 | taking a free resource keeps all priorities as the protocol asks if and only if nobody who waits for it is above the taker |
| SchedExact.BlockExactIff | sce213-pa2-2020s/pa2.c:532-538 | blocking does so if and only if nobody the owner itself waits for is below the blocking process |
| SchedExact.ReleaseExactIff | sce213-pa2-2020s/pa2.c:457-503 | a release does so if and only if nobody who waits for another resource of the owner is above its original priority |
| SchedExact.MoveExactIff | sce213-pa2-2020s/pa2.c:457-546 | the three in one: a step from exact priorities leads to exact ones if and only if its condition holds before it |
| SchedExact.AcquireLeads | sce213-pa2-2020s/sched.c:272-292 | the acquire loop goes through the recorded moves, with nothing between them that changes owners, waiters or priorities |
| SchedExact.ReleaseLeads | sce213-pa2-2020s/sched.c:297-314 | so does the release loop |
| SchedExact.RunExactIff | sce213-pa2-2020s/sched.c:320-390 | for every script and run: priorities are exact after every move of every turn if and only if every move meets its condition, and then between the turns too |
| SchedExact.SingleHoldRunsAreExact | sce213-pa2-2020s/pa2.c:457-546 | single-hold scripts are exact in this sense between the turns of every run |
| SchedExamples.InheritanceLost | sce213-pa2-2020s/pa2.c:464 | a run of three turns ends with an owner below a process waiting for what it holds |
| SchedPcp.RequestedIsFree | sce213-pa2-2020s/pa2.c:434-441 | while the ceiling holds, a requested resource is free if and only if the process does not hold it itself |
| SchedPcp.ReleaseAtCeilingIff | sce213-pa2-2020s/pa2.c:464 | a release leaves a process below the ceiling there with respect to what it still holds if and only if it held just that one entry |
| SchedPcp.TurnCeilingIff | sce213-pa2-2020s/pa2.c:430-503 | a turn keeps all queues empty and owners on top if and only if the process dispatched requests nothing twice or held and its entries run out all at once or not at all |
| SchedPcp.RunCeilingIff | sce213-pa2-2020s/sched.c:320-390 | so does a whole run of a script below the ceiling, if and only if each of its turns is of that kind |
| SchedPcp.CeilingNeverBlocks | sce213-pa2-2020s/pa2.c:430-503 | for scripts whose overlapping uses are of different resources and end together, in every reachable state nobody waits, an owner is the current process at the ceiling and is dispatched again, and no request fails |
| SchedPcp.CeilingScriptsComplete | sce213-pa2-2020s/sched.c:320-390 | such scripts end with every process complete |
| SchedExamples.CeilingBlocks | sce213-pa2-2020s/pa2.c:464 | a run of two turns ends with a process waiting, all original priorities being below the ceiling |
| SchedDispatch.DispatchesEarliestOfHighest | sce213-pa2-2020s/pa2.c:365-412 | the earliest of highest priority among the ready processes and the unfinished, non-waiting current one is dispatched, the others stay in order |
| SchedDispatch.RunningGivesWay | sce213-pa2-2020s/README.md:59 | the running process gives way when a ready one has at least its priority |
| SchedDispatch.FifoKeepsRunning | sce213-pa2-2020s/pa2.c:155-199 | FIFO runs a process to its end or block, then takes the first ready one |
| SchedDispatch.TakesItsTurn | sce213-pa2-2020s/README.md:59 | while nobody higher competes and priorities stay, a process with k equals before it is dispatched within k + 1 turns |
| SchedDispatch.PlainKeepsPriorities | sce213-pa2-2020s/pa2.c:414-424 | under FIFO and plain priorities no turn changes any priority |
| SchedDispatch.PlainTakesItsTurn | sce213-pa2-2020s/README.md:59 | so under plain priorities rotation needs only that nobody higher competes |
| SchedService.ForkMovesDue | sce213-pa2-2020s/sched.c:231-245 | exactly the due processes move to the end of the ready queue and get the ready status, both lists keeping their order; nobody else changes |
| SchedService.AcquireServesInOrder | sce213-pa2-2020s/sched.c:272-292 | the due requests are granted in order, each with a resource that was free, up to the first owned one, where the process waits last; nothing else changes owner or queue |
| SchedService.ReleasesExactlyExpired | sce213-pa2-2020s/sched.c:297-314 | exactly the entries out of time are given up; each wakes one waiter, the longest waiting (of highest priority), in the order of the entries; nothing else changes owner or queue |
| SchedService.WakesWhom | sce213-pa2-2020s/pa2.c:469-501 | a release wakes the first waiter under FIFO and plain priorities, the earliest of highest priority under the protocols |
| SchedMachine.BlockInParts | sce213-pa2-2020s/pa2.c:532-538 | marking the process, raising the owner and queueing are together the model's blocking step |
| SchedMachine.ReleaseInParts | sce213-pa2-2020s/sched.c:302-311 | waking the waiter before unlinking the entry has the same effect as after |
| SchedMachine.Process.constructor | sce213-pa2-2020s/sched.c:170-205 | a process as loaded, not started |
| SchedMachine.Scheduler.constructor | sce213-pa2-2020s/sched.c:393-402 | the objects start in the script's initial state, the fork queue in script order and everything else empty |
| SchedMachine.Scheduler.FcfsAcquire | sce213-pa2-2020s/pa2.c:65-89 | takes a free resource, or waits at the end of its queue |
| SchedMachine.Scheduler.PcpAcquire | sce213-pa2-2020s/pa2.c:430-455 | the same, raising the taker to the ceiling |
| SchedMachine.Scheduler.RaiseOwner | sce213-pa2-2020s/pa2.c:534-535 | the owner inherits a higher priority |
| SchedMachine.Scheduler.PipAcquire | sce213-pa2-2020s/pa2.c:520-546 | takes a free resource, or waits and passes its priority on |
| SchedMachine.Scheduler.RunCurrentAcquire | sce213-pa2-2020s/sched.c:272-292 | serves exactly the due requests in order until one blocks |
| SchedMachine.Scheduler.HighestOf | sce213-pa2-2020s/pa2.c:474-480 | the scanning loop finds the earliest process of highest priority |
| SchedMachine.Scheduler.FcfsRelease | sce213-pa2-2020s/pa2.c:100-137 | gives the resource up and readies the first waiter |
| SchedMachine.Scheduler.WakeAt | sce213-pa2-2020s/pa2.c:484-501 | a waiter, which is waiting, moves to the end of the ready queue |
| SchedMachine.Scheduler.PrioRelease | sce213-pa2-2020s/pa2.c:457-503 | gives the resource up and readies the first waiter of highest priority |
| SchedMachine.Scheduler.RunCurrentRelease | sce213-pa2-2020s/sched.c:297-314 | counts every held entry down and releases exactly those that run out |
| SchedMachine.Scheduler.ForkOnSchedule | sce213-pa2-2020s/sched.c:231-245 | moves exactly the due processes to the ready queue in order |
| SchedMachine.Scheduler.FifoSchedule | sce213-pa2-2020s/pa2.c:155-199 | chooses what the model's FIFO dispatch chooses |
| SchedMachine.Scheduler.PrioSchedule | sce213-pa2-2020s/pa2.c:365-412 | chooses what the model's priority dispatch chooses |
| SchedMachine.Scheduler.Decommission | sce213-pa2-2020s/sched.c:334-346 | the previous process is ready again or exits, and one that completes passes the framework's exit checks |
| SchedMachine.Scheduler.DispatchNext | sce213-pa2-2020s/sched.c:330-364 | hands the processor over as the model does, to a process in no list |
| SchedMachine.Scheduler.ExecuteCurrent | sce213-pa2-2020s/sched.c:366-384 | a tick of the running process |
| SchedMachine.Scheduler.TakeTurn | sce213-pa2-2020s/sched.c:324-389 | one turn of the loop is one tick of the model, and moves the clock by one unless it is the last |
| SchedMachine.Scheduler.DoSimulation | sce213-pa2-2020s/sched.c:320-390 | the main loop terminates on every script, its turns form a run of the model, it stops in the run's last state, and the clock shows the number of turns |
| VmModel.FirstFree | sce213-pa4-2020s/pa4.c:83-89 | the smallest unmapped frame, if there is one |
| VmModel.WritableIsExclusive | sce213-pa4-2020s/pa4.c:148-164 | a writable page is the only mapping of its frame over all processes |
| VmModel.AllocKeepsInvIff | sce213-pa4-2020s/pa4.c:62-96 | an allocation keeps exact counts and exclusive writable pages if and only if a frame is free |
| VmModel.AllocWhenFull | sce213-pa4-2020s/pa4.c:83-93 | with memory full an allocation maps frame 0 uncounted instead of failing |
| VmModel.FreeKeepsInv | sce213-pa4-2020s/pa4.c:108-119 | freeing keeps exact counts and exclusive writable pages |
| VmModel.FaultKeepsInvIff | sce213-pa4-2020s/pa4.c:138-168 | a fault keeps them if and only if no copy is needed or a frame is free |
| VmModel.SwitchKeepsInv | sce213-pa4-2020s/pa4.c:189-228 | resuming and forking keep them |
| VmModel.AccessGranted | sce213-pa4-2020s/vm.c:130-167 | an access succeeds if and only if the page is mapped and a write was allowed at allocation; after a handled fault the retry translates; a failed access changes nothing |
| VmModel.FewPagesLeaveRoom | sce213-pa4-2020s/pa4.c:83-89 | a frame is free as long as fewer pages than frames are mapped in all |
| VmRefinement.AllocRefines | sce213-pa4-2020s/pa4.c:62-96 | when a frame is free, an allocation is seen as one new page of the allocating process |
| VmRefinement.AllocRefinesIff | sce213-pa4-2020s/pa4.c:62-96 | it is so seen for every content if and only if a frame is free |
| VmRefinement.FreeRefines | sce213-pa4-2020s/pa4.c:108-119 | a free is seen as the loss of one page of the freeing process |
| VmRefinement.FaultInvisible | sce213-pa4-2020s/pa4.c:138-168 | no process can tell that a fault was handled |
| VmRefinement.AccessInvisible | sce213-pa4-2020s/vm.c:130-167 | nor that an access was made |
| VmRefinement.SwitchRefines | sce213-pa4-2020s/pa4.c:189-228 | a fork is seen as a copy of the parent's memory, a switch as resuming with one's own |
| VmRefinement.WriteRefines | sce213-pa4-2020s/pa4.c:148-164 | unless a copy is due and no frame is free, a write changes the writer's page and nobody else's |
| VmRefinement.WriteLeaks | sce213-pa4-2020s/pa4.c:152-163 | with a copy needed and memory full, a write shows through elsewhere |
| VmRefinement.WriteRefinesIff | sce213-pa4-2020s/pa4.c:148-164 | writes behave for every value if and only if no copy is needed or a frame is free |
| VmRefinement.ForkFidelity | sce213-pa4-2020s/pa4.c:206-227 | after a fork child and parent read and may write the same pages, and both must fault before writing |
| VmRefinement.OthersUntouched | sce213-pa4-2020s/pa4.c:62-168 | frees, allocations and accesses of the current process leave every other process's memory alone, and so does a write that finds the frame it needs |
| VmRefinement.ExecRefines | sce213-pa4-2020s/vm.c:185-218 | each command that finds a frame whenever it takes one keeps the invariant and answers as the world without sharing does |
| VmRefinement.ExecKeepsInvIff | sce213-pa4-2020s/vm.c:185-218 | a command keeps exact counts and exclusive writable pages if and only if it finds a frame whenever it takes one |
| VmRefinement.ScriptKeepsInvIff | sce213-pa4-2020s/vm.c:130-218 | a script keeps them after every command if and only if every command does so |
| VmRefinement.ScriptRefines | sce213-pa4-2020s/vm.c:130-218 | so does every script that finds a frame whenever it takes one |
| VmRefinement.BootInv | sce213-pa4-2020s/vm.c:220-223 | the system starts in the invariant |
| VmRefinement.BootScripts | sce213-pa4-2020s/pa4.c:62-228 | from boot, after any such script counts are exact, writable pages exclusive, and all replies those of unshared memory |
| VmRefinement.FullMemoryIsReached | sce213-pa4-2020s/pa4.c:83-93 | from boot, 128 allocations and a fork lead to a state in which the next allocation is not counted and a write shows through at the parent |
| VmFrames.AllocTakesSmallest | sce213-pa4-2020s/pa4.c:83-89 | with a frame free, an allocation maps the smallest free one, once, and leaves all other entries, counts and frames alone |
| VmFrames.FaultInPlace | sce213-pa4-2020s/pa4.c:148-152 | a fault that needs no copy changes at most the writable bit of its page |
| VmFrames.FaultTakesSmallest | sce213-pa4-2020s/pa4.c:152-163 | one that does moves the page with its content to the smallest free frame, one mapping from the old to the new, and changes nothing else |
| VmFrames.FaultHandled | sce213-pa4-2020s/pa4.c:138-168 | a fault is handled exactly for a mapped page that may be written or is not being written |
| VmFrames.EveryPagesPlace | sce213-pa4-2020s/pa4.c:62-228 | after any command, for every page of every process, the frame it is in is the one it was in, unless the command allocates, frees, copies or forks it, and then the one the source takes |
| VmKernel.KernelState.constructor | sce213-pa4-2020s/vm.c:220-223 | the kernel objects start in the boot state |
| VmKernel.KernelState.Translate | sce213-pa4-2020s/vm.c:84-117 | the two-level walk succeeds exactly when the flat table translates, with its frame |
| VmKernel.KernelState.FindFree | sce213-pa4-2020s/pa4.c:83-89 | the scanning loop finds the smallest free frame |
| VmKernel.KernelState.AllocPage | sce213-pa4-2020s/pa4.c:62-96 | allocation on the two-level tables is the model's allocation; the frame returned is the smallest free one, and only its count changes |
| VmKernel.KernelState.FreePage | sce213-pa4-2020s/pa4.c:108-119 | freeing is the model's freeing |
| VmKernel.KernelState.HandlePageFault | sce213-pa4-2020s/pa4.c:138-168 | fault handling is the model's; without need of a copy no count and no frame changes, with it the page is in the smallest free frame |
| VmKernel.KernelState.AccessMemory | sce213-pa4-2020s/vm.c:146-166 | the retry loop is the model's access |
| VmKernel.CopyDirectory | sce213-pa4-2020s/pa4.c:213-219 | protects a directory, copies it and counts every valid entry once more |
| VmKernel.KernelState.Resume | sce213-pa4-2020s/pa4.c:193-203 | the current process goes to the end of the list and the one found runs |
| VmKernel.KernelState.CopyTables | sce213-pa4-2020s/pa4.c:208-221 | all directories are copied into objects of the child's own |
| VmKernel.KernelState.Adopt | sce213-pa4-2020s/pa4.c:223-227 | the child runs with the new tables |
| VmKernel.KernelState.Fork | sce213-pa4-2020s/pa4.c:206-227 | a fork on the tables is the model's fork, with no directory shared |
| VmKernel.KernelState.SwitchProcess | sce213-pa4-2020s/pa4.c:189-228 | switching is the model's switching |
| VmKernel.KernelState.AllocCommand | sce213-pa4-2020s/vm.c:185-204 | the guarded allocation answers as the command does |
| VmKernel.KernelState.FreeCommand | sce213-pa4-2020s/vm.c:206-218 | the guarded free answers as the command does |
| ListHead.QueriesMatch | sce213-pa2-2020s/list_head.h:182-237 | the emptiness, last and singular queries answer for the sequence of entries |
| ListHead.ListUnique | sce213-pa2-2020s/list_head.h:32-34 | the pointers determine the entries and their order |
| ListHead.InitListHead | sce213-pa2-2020s/list_head.h:41-45 | an empty list |
| ListHead.AddBetween | sce213-pa2-2020s/list_head.h:53-61 | insertion between neighbours keeps the ring |
| ListHead.ListAdd | sce213-pa2-2020s/list_head.h:71-74 | puts an entry first |
| ListHead.ListAddTail | sce213-pa2-2020s/list_head.h:85-88 | puts an entry last |
| ListHead.DelEntry | sce213-pa2-2020s/list_head.h:97-112 | unlinks an entry, which keeps its own pointers |
| ListHead.ListDel | sce213-pa2-2020s/list_head.h:114-119 | unlinks and poisons an entry |
| ListHead.ListReplace | sce213-pa2-2020s/list_head.h:128-135 | puts a node in another's place, also in place of an empty list |
| ListHead.ListReplaceInit | sce213-pa2-2020s/list_head.h:137-142 | the same, leaving the old node an empty list |
| ListHead.ListDelInit | sce213-pa2-2020s/list_head.h:148-152 | unlinks an entry and makes it an empty list |
| ListHead.ListMove | sce213-pa2-2020s/list_head.h:159-163 | moves an entry to the front of another list |
| ListHead.ListMoveTail | sce213-pa2-2020s/list_head.h:170-175 | moves an entry to the end of another list |
| ListHead.ListMoveWithin | sce213-pa2-2020s/list_head.h:159-163 | moves an entry to the front of its list |
| ListHead.ListMoveTailWithin | sce213-pa2-2020s/list_head.h:170-175 | moves an entry to the end of its list |
| ListHead.ListRotateLeft | sce213-pa2-2020s/list_head.h:220-228 | rotates by one |
| ListHead.ListCutPosition | sce213-pa2-2020s/list_head.h:239-277 | moves the entries up to and including one to another list, or nothing in the cases that return early |
| ListHead.ListCutBefore | sce213-pa2-2020s/list_head.h:293-307 | moves the entries before one, or all for the head |
| ListHead.SpliceBetween | sce213-pa2-2020s/list_head.h:309-321 | puts a list's entries between two neighbours |
| ListHead.ListSplice | sce213-pa2-2020s/list_head.h:328-333 | joins at the front |
| ListHead.ListSpliceTail | sce213-pa2-2020s/list_head.h:340-345 | joins at the end |
| ListHead.ListSpliceInit | sce213-pa2-2020s/list_head.h:354-361 | joins at the front and empties the other list |
| ListHead.ListSpliceTailInit | sce213-pa2-2020s/list_head.h:371-378 | joins at the end and empties the other list |
| ListHead.CutAndSpliceBack | sce213-pa2-2020s/list_head.h:239-361 | cutting at an entry and splicing back restores every pointer |

## Left out

- SchedPip.InheritanceIsExact: for scripts in which no process requests anything while it holds something; for others it is false of the code, and `SchedExact.RunExactIff` says exactly when.
- SchedPcp.CeilingNeverBlocks: for scripts whose overlapping uses are of different resources and end together, with all priorities below the ceiling; for others it is false of the code, and `SchedPcp.RunCeilingIff` says exactly when.
- VmRefinement.ScriptRefines: for scripts that find a free frame whenever they take one; others break the counts, by `VmRefinement.ScriptKeepsInvIff`.
- Page numbers of 256 and above: the table walk then reads outside the table, which C leaves undefined.
- Fresh memory from the allocator is taken to be zeroed, as the page tables need it to be.
- The counter update and the queue operation of a semaphore are one step; both are done by the holder of the spin word.
- Signal masks, spurious returns from waiting for a signal, the weak memory model, thread barriers, and the timing checks of the lock tester.
- The SJF, SRTF and round-robin policies, which do not skip a waiting current process.
- Reading scripts and commands, options, output, and the failure of memory allocation.
- Earlier drafts kept beside the linked sources, the hash-list half of list_head.h, the shell of PA1 and the tokenizers.

# Models of the pthread programs

Each program is modelled as a step system, one atomic step per shared access or lock, semaphore,
condition-variable or barrier operation, and proved over every run: any interleaving and any number
of threads, items, iterations and buffer slots. The data structures under the programs (linked lists,
rings, bit sets, arrays, plates) are classes, arrays and loops that are proved against the sequences,
sets and grids they stand for.

| file | program | what is modelled |
|---|---|---|
| Chameneos.dfy | chameneosredux.c | creatures that meet in pairs through three semaphores; the second arrival hands the mutex to the first |
| StoreBuffering.dfy | test-membarrier-shared.c | two threads with store buffers around a store, a fence and a load |
| ThreadPool.dfy | pth_pool.c | a shifting task queue, workers and submitters, signals after the unlock |
| Bitmaps, BloomArithmetic, BloomInversion, BloomRuns, BloomCounts, BloomMain | hashInvertM.c | two inversions of a Bloom filter, the cursor that shares out its words, the count of its bits, and the branch that the count decides |
| JobList.dfy, JobSummary.dfy | assignment2question2.c | a list built by counting insertion, the simulated schedule, and one summary written by many threads |
| Philosophers.dfy | philosophers.c | forks taken in increasing order |
| HashTable.dfy | parallel_mutex.c | bucket chains prepended line by line under one lock per bucket |
| SortedList.dfy | mutex_linked_list.c | a sorted list as a set, relinked in place by many threads |
| PlateArrays, PlateGrids, HotPlate, PlateEnergy, PlateRuns | hot_plate_barriers.c | Jacobi sweeps between two barriers, and when they end |
| BoundedBuffer.dfy | 05bounded.c | a cyclic buffer with two condition variables |
| ActorQueue.dfy, Actor.dfy, ActorRoom.dfy | queue_cyclic.c | a cyclic queue with one empty slot, an actor that empties it in batches, and how much room it needs |
| MergeSort.dfy, ForkJoin.dfy | MergeSort.c_ | merging in place, and a tree of threads that fork and join |

Sums.dfy, Runs.dfy, Sequences.dfy and Arithmetic.dfy hold what several models share: sums over
threads, invariants and measures of runs, insertion into sequences, quotients and remainders.

Six results say that a program does less than it seems to, and exactly when:

- `reconstruct0` loses vertices that are in the filter when a zero bit at or beyond the modulus of a
  hash is an alias of one of their bits. It agrees with `reconstruct1` exactly if there is no such
  bit (`BloomRuns.ReconstructionsAgree`, `BloomMain.AliasExample`).
- The loop of `reconstruct0` that clears bits has no bound on its sample and can write behind the
  words of M. The program does so exactly if at least half of the bits of the filter are set and one of
  the zero bits leads there (`BloomMain.MainOverruns`, `BloomMain.OverrunExample`).
- The update of `hot_plate_barriers.c` returns exactly if the number of workers divides the number of
  rows or leaves one row, because nobody sweeps the rows left over but the test reads them: with 16384
  rows and 6 workers it never returns (`PlateRuns.ProgramReturns`).
- `queue_enqueue` drops what does not fit and the senders of `queue_cyclic.c` ignore that. The actor can
  sleep for ever exactly if the queue has no room for all numbers and the final -1
  (`ActorRoom.StopIsHeard`); it can stop with a wrong count exactly if there is no room for all numbers
  (`ActorRoom.CountsAreRight`). With 50 numbers for each sender and 100000 slots, 2000 senders can make
  it sleep but never count wrong, and more senders can do both.
- The rendezvous of `chameneosredux.c` never ends with a single creature or without a meeting to hold
  (`Chameneos.LoneCreature`, `Chameneos.MeetingsAreNeeded`).
- The consumer of `05bounded.c` waits for ever exactly if the text holds a NUL, because only the
  producer stops there (`BoundedBuffer.EveryState`). The program as written never meets that case: its
  text is a fixed array of 30 characters without a NUL.

The 16384 rows of the plate, buffer sizes, numbers of threads, keys, items and iterations are
parameters. Runs are finite sequences of states; what holds in the last state of every run holds in
every reachable state. Where a model keeps a record of what has happened (the views of a meeting, the
submitted tasks, the linked entries, the output, lost messages, spurious wake-ups), no step reads it.

## Model

| member | source | states |
|---|---|---|
| Chameneos.FinalState | Faulty/OneBug/chameneosredux.c:130-282 | When run_the_meetings ends, for any number of creatures from two on and any number N of meetings from one on: the printed total is 2N, done is set, exactly N pairs of mirror-image views were exchanged, nobody met itself, and the colours add up modulo 3 as at the start |
| Chameneos.EveryState | Faulty/OneBug/chameneosredux.c:130-221 | In every state of every run: the joint invariant holds, exit is never called, the second done test never fires, met_self is 0, partners saw exactly each other, somebody can move until all are joined, and a run has at most 32n + 40N steps |
| Chameneos.TwoAreNeeded | Faulty/OneBug/chameneosredux.c:130-180 | The rendezvous never gets stuck if and only if there are at least two creatures |
| Chameneos.LoneCreature | Faulty/OneBug/chameneosredux.c:130-177 | In every state of every run of a single creature, whatever its colour and the number of meetings: it is never joined, and nobody can move exactly when main has posted sem_print and it waits at sem_priv |
| Chameneos.LoneCreatureWaits | Faulty/OneBug/chameneosredux.c:148-155 | There is a run of a single creature of any colour that gets there: it waits at sem_priv and nobody can move |
| Chameneos.NeverDone | Faulty/OneBug/chameneosredux.c:160-180 | If no meeting is requested, done is never set and no run of one or more creatures finishes |
| Chameneos.MeetingsAreNeeded | Faulty/OneBug/chameneosredux.c:130-221 | For two or more creatures, some run finishes if and only if at least one meeting is requested |
| Chameneos.ComplementLaws | Faulty/OneBug/chameneosredux.c:47-105 | The complement exits exactly on a colour that is none of the three, with 4 if it is the first and with 1, 2 or 3 after blue, red or yellow if it is the second; otherwise it is symmetric, keeps equal colours, gives the third of two different ones, and is minus the sum modulo 3 |
| Chameneos.ExitEnds | Faulty/OneBug/chameneosredux.c:60-101 | In the model a creature that meets an invalid colour ends the process with the code of the complement |
| Chameneos.CountsKept | Faulty/OneBug/chameneosredux.c:135-177 | Every step conserves the two permits and the mutex: each unit is in its semaphore, with one creature, or on its way through sem_priv |
| Chameneos.BatonAlone | Faulty/OneBug/chameneosredux.c:141-176 | While one creature carries the mutex, the semaphore and sem_priv are empty and no other creature carries it |
| Chameneos.Partner | Faulty/OneBug/chameneosredux.c:155-176 | A second arrival that has not yet posted sem_priv has a first arrival waiting there, and it is another creature |
| Chameneos.MeetingsKept | Faulty/OneBug/chameneosredux.c:160-163 | Every step keeps the meeting count exact: meetings counted by creatures and meetings_left always add up to the requested number, and done is set only when none is left |
| Chameneos.BothPermits | Faulty/OneBug/chameneosredux.c:135-166 | A creature that carries both permits is the only one with a permit, and neither the semaphore nor sem_priv holds one |
| Chameneos.ExchangesKept | Faulty/OneBug/chameneosredux.c:148-177 | Every step keeps what each creature may rely on in A and B, and the records of the two sides of each meeting stay mirror images |
| Chameneos.ViewRead | Faulty/OneBug/chameneosredux.c:157-158 | The first arrival reads exactly the mirror image of what the second arrival saw |
| Chameneos.ColoursKept | Faulty/OneBug/chameneosredux.c:148-208 | Every step conserves the sum of the colours modulo 3, with the change owed by a half-finished meeting included |
| Chameneos.PrintingKept | Faulty/OneBug/chameneosredux.c:212-220 | Every step keeps the account of sem_print: one post per creature, and only exited creatures are joined |
| Chameneos.NotStuck | Faulty/OneBug/chameneosredux.c:130-220 | In every state with the invariant some thread can move, until everybody is joined |
| Chameneos.AtPermit | Faulty/OneBug/chameneosredux.c:135-176 | If a creature waits and no permit is left, a creature that holds a permit can move |
| Chameneos.MeasureDrops | Faulty/OneBug/chameneosredux.c:195-210 | Every step lowers a measure of the work left, so every run ends |
| StoreBuffering.FencedRunIsSafe | Fixed/NoBug1/test-membarrier-shared.c:66-139 | With the full fence under total store order, in every state of every run of any number of iterations: nobody aborts, killed stays 0, the ready flags are never both set, two registers of 0 never meet in an iteration, and x and y are 0 in memory and buffers whenever both threads pass the gate |
| StoreBuffering.Consequences | Fixed/NoBug1/test-membarrier-shared.c:28-64 | What the invariant means for a single state: no abort, no pair of zeros, at most one ready flag, clean x and y at the gate |
| StoreBuffering.FenceDecides | Fixed/NoBug1/test-membarrier-shared.c:78-93 | For any positive number of iterations, no run aborts if and only if the barrier is the full fence rather than the compiler barrier |
| StoreBuffering.UnfencedRunAborts | Fixed/NoBug1/test-membarrier-shared.c:89-92 | Without the fence there is a run in which both threads load 0 and the child aborts |
| StoreBuffering.BothAbort | Fixed/NoBug1/test-membarrier-shared.c:66-139 | With two iterations or more there is such a run in which the parent then reads killed at the gate and aborts as well |
| StoreBuffering.DrainUnnoticed | Fixed/NoBug1/test-membarrier-shared.c:77-94 | Total store order as the model has it: what a thread reads does not change when the oldest of its buffered stores reaches memory |
| StoreBuffering.StepKeeps | Fixed/NoBug1/test-membarrier-shared.c:66-139 | Every instruction of either thread keeps the invariant of the loop |
| StoreBuffering.DrainKeeps | Fixed/NoBug1/test-membarrier-shared.c:77-94 | Every move of the oldest buffered store to memory keeps the invariant, whenever it happens |
| StoreBuffering.NoKill | Fixed/NoBug1/test-membarrier-shared.c:32-36 | No thread is about to store to killed |
| StoreBuffering.WorkDrops | Fixed/NoBug1/test-membarrier-shared.c:70-76 | Only polling at the gate leaves the work left unchanged; no instruction raises it |
| StoreBuffering.OnlyPollingGoesOn | Fixed/NoBug1/test-membarrier-shared.c:66-139 | In every run of n iterations with the full fence, all but at most 80n + 76 steps, moves of buffered stores included, are polls of a gate that the other thread has not reached |
| StoreBuffering.Progress | Fixed/NoBug1/test-membarrier-shared.c:66-139 | Until both threads are done some step lowers the work left, so every run can be led to its end |
| TaskQueues.TaskQueue.TakeFirst | Fixed/NoBug1/pth_pool.c:45-50 | Shifting the array down by one removes exactly the first task and returns it |
| TaskQueues.TaskQueue.Append | Fixed/NoBug1/pth_pool.c:64-65 | The new task goes behind all queued ones |
| ThreadPool.EveryState | Fixed/NoBug1/pth_pool.c:38-121 | For any capacity from one on, any workers and submitters, signals after the unlock and spurious wake-ups: taken tasks are a prefix of the submitted ones, each submitter's tasks keep their order, each worker has executed a prefix of what it took, a worker has ended only if somebody submits (-1, -1), and if nobody can move then no wake-up was lost and, unless all workers have ended, every task has been submitted, taken and, by a worker that has not ended, executed |
| ThreadPool.AllExecuted | Fixed/NoBug1/pth_pool.c:102-121 | If nobody submits (-1, -1), then no worker ends; so when nobody can move and there is a worker, every submitter's tasks have been submitted in order, all were taken in that order, and each was executed by the worker that took it |
| ThreadPool.HonestKept | Fixed/NoBug1/pth_pool.c:45-121 | Every step keeps: what a worker took is what it executed, in order, and the task in its hand; a worker that has ended took (-1, -1) last, and that is never executed |
| ThreadPool.LastTaken | Fixed/NoBug1/pth_pool.c:45-56 | The task that getTask returns to a worker is the last one that it took from the queue |
| ThreadPool.EndIsSubmitted | Fixed/NoBug1/pth_pool.c:112-121 | A worker has ended only if somebody submits (-1, -1) |
| ThreadPool.RunsEnd | Fixed/NoBug1/pth_pool.c:38-69 | The length of a run is bounded by the tasks and threads but for spurious wake-ups, each of which allows three steps more |
| ThreadPool.WorkDrops | Fixed/NoBug1/pth_pool.c:38-69 | Every step but a spurious wake-up lowers a measure of the work left |
| ThreadPool.NobodyForgotten | Fixed/NoBug1/pth_pool.c:41-43 | A state without an enabled thread has no queued task with a sleeping worker and no submitter asleep |
| ThreadPool.QuietStepKeeps | Fixed/NoBug1/pth_pool.c:38-69 | Every step but a signal keeps: while a worker sleeps each queued task has a signal or an awake worker coming, and dually for free slots and submitters |
| ThreadPool.WakingSignalKeeps | Fixed/NoBug1/pth_pool.c:52-53 | A signal that wakes a sleeper keeps that balance although it follows the unlock |
| ThreadPool.IdleSignalKeeps | Fixed/NoBug1/pth_pool.c:67-68 | A signal that finds no sleeper may be lost: nobody needs it |
| ThreadPool.FifoKept | Fixed/NoBug1/pth_pool.c:45-65 | Every step keeps: taken tasks followed by queued tasks are the submitted tasks in order |
| ThreadPool.ExclusionKept | Fixed/NoBug1/pth_pool.c:39-67 | Every step keeps mutual exclusion, the capacity, and that a task is taken only from a non-empty and put only into a non-full queue |
| Bitmaps.CheckLocation | Fixed/NoBug2/hashInvertM.c:197-203 | Tells whether the value is in the set that the words stand for |
| Bitmaps.SetLocation | Fixed/NoBug2/hashInvertM.c:205-209 | Adds exactly the value to the set |
| Bitmaps.ResetLocation | Fixed/NoBug2/hashInvertM.c:211-215 | Removes exactly the value from the set |
| Bitmaps.Fill | Fixed/NoBug2/hashInvertM.c:185-195 | Sets or clears all bits of all words |
| BloomArithmetic.CeilDivCovers | Fixed/NoBug2/hashInvertM.c:159-161 | k words hold all bits if and only if k is at least the rounded-up quotient |
| BloomArithmetic.TruncIs | Fixed/NoBug2/hashInvertM.c:226-230 | Quotient and remainder of machine integers: they make up the dividend, and the remainder is smaller than the divisor and has the sign of the dividend |
| BloomArithmetic.SplitTest | Fixed/NoBug2/hashInvertM.c:226 | The test on the two separately reduced remainders, with truncating division, holds exactly if the sum is divisible |
| BloomArithmetic.FoundAll | Fixed/NoBug2/hashInvertM.c:225-234 | The loop over count has met every solution of a*x + b = i + count*m below nVertices when its sample leaves the range, and nothing else |
| BloomArithmetic.RoundTest | Fixed/NoBug2/hashInvertM.c:224-234 | Round c is the first whose sample is not below nVertices exactly as the rounded-up quotient says |
| BloomArithmetic.BeyondOvershoots | Fixed/NoBug2/hashInvertM.c:224-234 | The number not below nVertices that the loop over count of reconstruct0 ends with and clears is exactly the x that is congruent to the bit, not below it, and either the first sample or less than a modulus beyond nVertices: a condition without the loop |
| BloomArithmetic.SolvesIs | Fixed/NoBug2/hashInvertM.c:250-256 | A vertex is met for exactly the bits that are its hash plus a multiple of the modulus and not beyond a*x + b; below the modulus only for its own hash |
| BloomArithmetic.SolvesOwn | Fixed/NoBug2/hashInvertM.c:250-256 | Every positive vertex is met from the bit that it hashes to |
| BloomInversion.Inverter.ClearSolutions | Fixed/NoBug2/hashInvertM.c:224-234 | The loop ends although nothing bounds its sample, and clears in M exactly the solutions of one hash for one bit and, if it solves the equation too, the first sample not below nVertices; it reports an overrun exactly if that sample lies behind the words of M |
| BloomInversion.Inverter.Reconstruct0 | Fixed/NoBug2/hashInvertM.c:217-238 | One call removes from M exactly the samples that some hash relates to a zero bit of the word, and reports an overrun exactly if one of them lies behind the words of M |
| BloomInversion.Inverter.Lookup | Fixed/NoBug2/hashInvertM.c:259 | Stands for is_in: true exactly if all three hash bits are set |
| BloomInversion.Inverter.ProbeSolutions | Fixed/NoBug2/hashInvertM.c:250-265 | The loop ends, looks every new solution up once, and adds the members of the filter to M |
| BloomInversion.Inverter.Reconstruct1 | Fixed/NoBug2/hashInvertM.c:241-272 | One call probes exactly the preimages of the one bits of the word, each vertex once over all calls, and adds the number of look-ups to numMemberships |
| BloomInversion.ProbeSetTwice | Fixed/NoBug2/hashInvertM.c:256-261 | Probing one set and then another is probing their union, look-ups included |
| BloomInversion.ProbeRoundsIs | Fixed/NoBug2/hashInvertM.c:251-265 | Probing sample by sample is probing the set of samples |
| BloomRuns.EndOfRun | Fixed/NoBug2/hashInvertM.c:127-157 | When all threads have exited, the cursor has handed out every word exactly once, and neither the tables nor whether reconstruct0 wrote behind M depend on the order |
| BloomRuns.RunsEnd | Fixed/NoBug2/hashInvertM.c:127-157 | No run has more than two steps per word and one per thread, and some thread can move until all have exited |
| BloomRuns.OrderIrrelevant | Fixed/NoBug2/hashInvertM.c:143-157 | Any order of the same words gives the same set of preimages |
| BloomRuns.ReconstructOnes | Fixed/NoBug2/hashInvertM.c:241-272 | reconstruct1 from empty tables finds exactly the vertices 1 to nVertices-1 whose three bits are set, and looks up as many as there are different candidates |
| BloomRuns.ReconstructZeros | Fixed/NoBug2/hashInvertM.c:217-238 | reconstruct0 from a full M keeps no vertex outside the filter, and keeps all inside if and only if no zero bit i has i mod m equal to the hash of one of them and i at most a*x + b; it leaves exactly the bits that no zero bit sweeps, bit 0 among them |
| BloomRuns.ReconstructionsAgree | Fixed/NoBug2/hashInvertM.c:217-272 | Both reconstructions give the same vertices if and only if there are no such aliases |
| BloomRuns.FullModuliHaveNoAliases | Fixed/NoBug2/hashInvertM.c:217-221 | There are no aliases if every modulus covers all bits of the words of the filter |
| BloomRuns.RunOverruns | Fixed/NoBug2/hashInvertM.c:127-142 | A run of reconstruct0 writes behind M if and only if some zero bit, hash and x at or beyond the bits of M satisfy that condition, which is a finite search; a run of reconstruct1 never does |
| BloomRuns.ReconstructAll | Fixed/NoBug2/hashInvertM.c:127-142 | The calls of reconstruct0 for all words, in place on M: exactly the hits are cleared, and some call overruns if and only if that condition holds |
| BloomCounts.EndOfRun | Fixed/NoBug2/hashInvertM.c:163-183 | When all threads of countOnes have exited, totalOnes is the number of set bits of the words of the filter, however the threads interleaved |
| BloomCounts.StepKeeps | Fixed/NoBug2/hashInvertM.c:163-183 | Every step keeps: totalOnes and what threads have taken and not yet added are the set bits of the words handed out |
| BloomCounts.RunsEnd | Fixed/NoBug2/hashInvertM.c:163-183 | No run of the count has more than three steps per word and one per thread, and some thread can move until all have exited |
| BloomMain.MainIsExact | Fixed/NoBug2/hashInvertM.c:84-112 | For every run of the count followed by the branch that main takes: the vertices are exactly those in the filter if and only if fewer than half of its bits are set or there are no aliases |
| BloomMain.MainOverruns | Fixed/NoBug2/hashInvertM.c:84-112 | Such a run writes behind M if and only if at least half of the bits are set and some zero bit leads there |
| BloomMain.AliasExample | Fixed/NoBug2/hashInvertM.c:97-112 | A run of main on a filter of three bits, from M as setM leaves it, that ends without vertex 2, although vertex 2 is in the filter |
| BloomMain.OverrunExample | Fixed/NoBug2/hashInvertM.c:97-112 | A run of main that writes behind M: 32 vertices, one word of M, the hash x mod 40 and the filter of the vertices 1 to 20 |
| JobList.JobList.Insert | Fixed/NoBug2/assignment2question2.c:91-131 | In place on the linked list: the job is inserted behind as many jobs as there are with a smaller arrival + duration, whichever of the branches does it |
| JobList.JobList.Count | Fixed/NoBug2/assignment2question2.c:155-164 | The number of nodes |
| JobList.JobList.Add | Fixed/NoBug2/assignment2question2.c:133-153 | Prepends the job |
| JobList.JobList.AddAfter | Fixed/NoBug2/assignment2question2.c:166-190 | Inserts behind the first loc - 1 nodes |
| JobList.JobList.Append | Fixed/NoBug2/assignment2question2.c:109-129 | Appends the job |
| JobList.JobList.CountBelow | Fixed/NoBug2/assignment2question2.c:98-103 | Counts the jobs with a smaller arrival + duration |
| JobList.InsertedSorted | Fixed/NoBug2/assignment2question2.c:98-107 | On a sorted list the insertion keeps it sorted, keeps all jobs, and places the new job first among equal keys |
| JobList.BuildIsSorted | Fixed/NoBug2/assignment2question2.c:52-61 | Repeated insertion yields a sorted permutation of the input in which later jobs with equal keys come first |
| JobSummary.FinishIsBusyPeriod | Fixed/NoBug2/assignment2question2.c:201-216 | For any arrivals and durations, job k completes at the largest of these times: the durations of the jobs up to k from time 0 on, and for each job j up to k its arrival plus the durations from j to k, where a negative duration counts as none |
| JobSummary.SummaryList.AddToSummary | Fixed/NoBug2/assignment2question2.c:229-270 | In place on the linked list with its rear pointer: an entry with the user gets the time, a new user is appended |
| JobSummary.UpdatedUsers | Fixed/NoBug2/assignment2question2.c:244-266 | An update keeps the users and their order and adds a new user at the end only |
| JobSummary.UpdatedTimes | Fixed/NoBug2/assignment2question2.c:246-251 | An update changes the time of its user only |
| JobSummary.SummaryIsDeterministic | Fixed/NoBug2/assignment2question2.c:192-270 | For any positive number of display threads and any interleaving of their updates, the final summary is the one that a single thread produces, with no duplicate user |
| JobSummary.RunsEnd | Fixed/NoBug2/assignment2question2.c:192-216 | Every step writes one entry, so a run of n threads over the jobs has at most n times as many steps as there are jobs, and some thread can move until all are done |
| Philosophers.EveryState | Fixed/NoBug2/philosophers.c:88-115 | For two or more philosophers, in every state of every run: somebody can move unless all are done, neighbours never eat together, everybody's meals and remaining hunger add up to the initial hunger, and the run has at most six steps for each meal and one for each philosopher |
| Philosophers.FinalState | Fixed/NoBug2/philosophers.c:88-115 | A finished run leaves all hunger at 0 and all forks free, everybody has eaten exactly as often as it was hungry, and the run has exactly n * (6 * hunger + 1) steps |
| Philosophers.TwoAreNeeded | Fixed/NoBug2/philosophers.c:65-98 | Hungry philosophers never get stuck if and only if there are at least two of them |
| Philosophers.EtiquetteKept | Fixed/NoBug2/philosophers.c:65-85 | Every step keeps: a fork is held by a philosopher exactly if its place in the meal says so |
| Philosophers.NeighboursTakeTurns | Fixed/NoBug2/philosophers.c:92-107 | Two neighbours never eat at the same time |
| Philosophers.ChainEnds | Fixed/NoBug2/philosophers.c:92-98 | The chain of philosophers waiting for each other's forks goes up in fork numbers, so somebody in it can move |
| Philosophers.LonePhilosopherWaits | Fixed/NoBug2/philosophers.c:65-74 | A single philosopher waits for the fork it holds |
| HashTable.EveryState | Faulty/OneBug/parallel_mutex.c:34-69 | With every access of insert as a step of its own, in every state of every run: chains are acyclic and hold what was linked, some thread can move unless all are done, and the run ends |
| HashTable.AllPut | Faulty/OneBug/parallel_mutex.c:108-117 | After all put threads are joined, there is exactly one entry per index j, with its key and j modulo the number of threads, in the bucket of the key and in no other |
| HashTable.ContentsKept | Faulty/OneBug/parallel_mutex.c:39-45 | A line of insert leaves every chain intact: the links in a bucket are those of its published entries |
| HashTable.LocksKept | Faulty/OneBug/parallel_mutex.c:39-45 | A thread holds a bucket's lock exactly between lock and unlock of that bucket |
| HashTable.BuildingKept | Faulty/OneBug/parallel_mutex.c:40-43 | An unpublished entry holds what its thread has stored, and still points to the current head |
| HashTable.Retrieve | Faulty/OneBug/parallel_mutex.c:50-56 | Walks the pointers of the bucket and returns the first entry with the key, or NULL exactly if there is none |
| HashTable.GetPhase | Faulty/OneBug/parallel_mutex.c:71-82 | In any table whose chains end: the number of indices that belong to the thread and whose key no entry of its bucket's chain has |
| HashTable.NoKeyLost | Faulty/OneBug/parallel_mutex.c:108-136 | After the put phase of any number of threads in any interleaving, no get thread loses a key |
| SortedList.List.Member | Faulty/ManyBugs/mutex_linked_list.c:31-42 | Returns 1 exactly if the value is in the list |
| SortedList.List.Insert | Faulty/ManyBugs/mutex_linked_list.c:44-69 | In place: the value is put behind all smaller ones unless it is there, the list stays strictly increasing and acyclic, and the result is 1 exactly if the value was absent |
| SortedList.List.Delete | Faulty/ManyBugs/mutex_linked_list.c:71-92 | In place: the value is removed if it is there and all others stay in order, and the result is 1 exactly if it was present |
| SortedList.List.Find | Faulty/ManyBugs/mutex_linked_list.c:49-52 | The walk stops at the first node that is not below the value, with its predecessor |
| SortedList.LengthIsSize | Faulty/ManyBugs/mutex_linked_list.c:31-92 | The list is as long as its set of values is large |
| SortedList.LengthCountsCalls | Faulty/ManyBugs/mutex_linked_list.c:108-142 | For any threads, quotas and interleaving of guarded calls, in every state of every run: the list is strictly increasing and its length is the initial one plus successful inserts minus successful deletes, within the quotas |
| SortedList.QuotasAreMet | Faulty/ManyBugs/mutex_linked_list.c:108-137 | In every state of every run, the calls of Member, Insert and Delete that each thread has made and those it has left are its quotas; a thread that is done has made exactly its quotas |
| SortedList.RoundCalls | Faulty/ManyBugs/mutex_linked_list.c:119-135 | A round makes a call exactly if the thread has one left of the kind that the number asks for, and takes one off that kind of that thread only |
| SortedList.CallsDecide | Faulty/ManyBugs/mutex_linked_list.c:108-142 | In every state of every run the list holds what it held at first or Insert was called with, without what Delete was called with, and the successes are the inserted numbers that were not there and the deleted ones that were: inserts and deletes differ modulo 3 |
| SortedList.OrderIrrelevant | Faulty/ManyBugs/mutex_linked_list.c:108-142 | Two runs in which the same numbers were inserted and deleted, in whatever order, end with the same list and the same numbers of successes |
| SortedList.UpdatesKeep | Faulty/ManyBugs/mutex_linked_list.c:44-92 | An insert or delete keeps a strictly increasing list so, and changes its length by one exactly if it changes its set of values |
| PlateArrays.Plates.InitPlate | Fixed/NoBug1/hot_plate_barriers.c:58-108 | In both plates: 0 and locked in every 20th column and, but for every 20th row, at the right border; otherwise 100 and locked in every 20th row and at the bottom; everywhere else 50 and unlocked (the special row 400 and cell (200,500) leave no trace) |
| PlateArrays.StartIsProper | Fixed/NoBug1/hot_plate_barriers.c:58-108 | The initial locks cover the whole border and the initial cells lie between 0 and 100 |
| PlateArrays.Plates.UpdateRows | Fixed/NoBug1/hot_plate_barriers.c:137-145 | The sweep sets each unlocked cell of its rows to the average over the previous plate and touches nothing else; from the top and equal plates it is the Jacobi step of those rows |
| PlateArrays.Plates.Copy | Fixed/NoBug1/hot_plate_barriers.c:48-56 | Makes the previous plate equal to the main one |
| PlateArrays.Plates.Steady | Fixed/NoBug1/hot_plate_barriers.c:150-172 | Returns 0 exactly if every unlocked cell is within 0.1 of the mean of its neighbours |
| PlateArrays.AllocateWorkload | Fixed/NoBug1/hot_plate_barriers.c:174-186 | Entries 2w and 2w + 1 bound the share of worker w, each beginning where the one before ends |
| PlateGrids.SharesAreDisjoint | Fixed/NoBug1/hot_plate_barriers.c:174-186 | The shares of different workers do not overlap and lie inside the grid |
| PlateGrids.SharesMakeAStep | Fixed/NoBug1/hot_plate_barriers.c:138-145 | The workers together compute one Jacobi step of every plate if and only if no unlocked cell lies in the rows that the division leaves over |
| PlateGrids.DivisibleSharesMakeAStep | Fixed/NoBug1/hot_plate_barriers.c:174-186 | That is so if the number of workers divides the size, or leaves only the last row |
| PlateGrids.PhasesTempered | Fixed/NoBug1/hot_plate_barriers.c:141-142 | Over the reals no number of sweeps leaves the range from 0 to 100 |
| PlateGrids.PhasesLocked | Fixed/NoBug1/hot_plate_barriers.c:140 | No number of sweeps changes a locked cell |
| HotPlate.EveryState | Fixed/NoBug1/hot_plate_barriers.c:125-223 | In every state of every run, cell accesses interleaved: nobody sweeps while the main thread copies or tests, every cell of both plates holds its value before or after the current phase, somebody can move until the update returns, and no earlier phase made the plate steady |
| HotPlate.EveryPhase | Fixed/NoBug1/hot_plate_barriers.c:212-221 | The current phase leads from the plate after the completed ones to the plate after one more sweep of all shares |
| HotPlate.CellsKept | Fixed/NoBug1/hot_plate_barriers.c:140-142 | No run changes a locked cell or leaves the range from 0 to 100, in either plate, at any moment |
| HotPlate.FinalState | Fixed/NoBug1/hot_plate_barriers.c:188-223 | If no unlocked cell lies in the leftover rows, as when the number of workers divides the size or leaves one row, a finished update leaves the first steady plate of the sequential Jacobi iteration |
| HotPlate.SweepDone | Fixed/NoBug1/hot_plate_barriers.c:147 | When all workers are past the sweep, their interleaved writes amount to one sweep of all shares |
| HotPlate.PhasesAreSteps | Fixed/NoBug1/hot_plate_barriers.c:125-149 | Then k phases of the workers are k sequential Jacobi steps |
| HotPlate.DivisibleIsCovered | Fixed/NoBug1/hot_plate_barriers.c:174-186 | No unlocked cell lies in the leftover rows if the number of workers divides the size or leaves one row |
| PlateEnergy.StepDrops | Fixed/NoBug1/hot_plate_barriers.c:140-142 | A sweep lowers half the sum of squared differences of neighbouring cells by at least the squared distance of any unlocked cell from the mean of its neighbours |
| PlateEnergy.RestlessDrops | Fixed/NoBug1/hot_plate_barriers.c:140-172 | A sweep of a plate that is not steady lowers that sum by at least 0.01 |
| PlateRuns.PhasesBounded | Fixed/NoBug1/hot_plate_barriers.c:212-221 | If no unlocked cell lies in the leftover rows, no run has more phases before its last one than 100 times that sum for the initial plate |
| PlateRuns.RunsEnd | Fixed/NoBug1/hot_plate_barriers.c:125-223 | Then there is a bound on the number of steps of all runs |
| PlateRuns.Completed | Fixed/NoBug1/hot_plate_barriers.c:125-223 | Then every run goes on until the update has returned |
| PlateRuns.ReturnsAlways | Fixed/NoBug1/hot_plate_barriers.c:188-223 | The update of every plate between 0 and 100 can return if and only if no unlocked cell lies in the leftover rows; otherwise a plate with one hot cell there never becomes steady |
| PlateRuns.ProgramReturns | Fixed/NoBug1/hot_plate_barriers.c:58-223 | For the plate that the program itself sets up, the update can return if and only if the number of workers divides the size or leaves one row |
| CyclicBuffers.Buffer.Insert | Fixed/NoBug1/05bounded.c:78-80 | The ring refines a bounded queue: the item is appended and the indices stay consistent modulo the size |
| CyclicBuffers.Buffer.Remove | Fixed/NoBug1/05bounded.c:117-119 | The oldest item is removed and returned |
| CyclicBuffers.PutAppends | Fixed/NoBug1/05bounded.c:78-80 | Putting into a ring that is not full appends to the queue it stands for |
| CyclicBuffers.TakeDrops | Fixed/NoBug1/05bounded.c:117-119 | Taking from a ring that is not empty drops the first element of that queue |
| BoundedBuffer.EveryState | Fixed/NoBug1/05bounded.c:57-135 | For any size, any items and spurious wake-ups, in every state of every run: the output is a prefix of the text, no wake-up is lost, the run is bounded but for spurious wake-ups, and when nobody can move the whole text is output and both threads have exited if and only if the items contain no NUL |
| BoundedBuffer.NulKeepsConsumer | Fixed/NoBug1/05bounded.c:66-66 | If the items contain a NUL, the producer handles no item behind the first one and exits there, and the consumer never exits |
| BoundedBuffer.Completed | Fixed/NoBug1/05bounded.c:57-135 | Every run without spurious wake-ups extends to one in which nobody can move |
| BoundedBuffer.ProducerKeeps | Fixed/NoBug1/05bounded.c:65-91 | Every producer step keeps exclusion, first-in first-out order and that who sleeps has nothing to do or is about to be signalled |
| BoundedBuffer.ConsumerKeeps | Fixed/NoBug1/05bounded.c:106-130 | Every consumer step keeps the same |
| BoundedBuffer.WorkDrops | Fixed/NoBug1/05bounded.c:57-135 | Every step but a spurious wake-up lowers a measure of the work left |
| ActorQueue.Queue.Enqueue | Fixed/NoBug1/queue_cyclic.c:91-99 | Appends across the wrap-around, or drops the data and returns 0 exactly if the queue is full |
| ActorQueue.Queue.Dequeue | Fixed/NoBug1/queue_cyclic.c:101-109 | Removes and returns the oldest element and sets its slot to null, or returns null exactly if the queue is empty; slots outside the queue are always null |
| ActorQueue.Queue.IsFull | Fixed/NoBug1/queue_cyclic.c:83-85 | True exactly if the queue holds one element less than the ring has slots |
| ActorQueue.Queue.QueueSize | Fixed/NoBug1/queue_cyclic.c:79-81 | The number of queued elements on both sides of the wrap-around |
| ActorQueue.Queue.DequeueAll | Fixed/NoBug1/queue_cyclic.c:111-125 | Moves everything up to the first null to a vector in order; the error branch cannot be reached |
| ActorQueue.NoNulls | Fixed/NoBug1/queue_cyclic.c:111-125 | Without nulls that is the whole queue, and nothing stays behind |
| ActorQueue.Vector.PushBack | Fixed/NoBug1/queue_cyclic.c:43-50 | Appends, or returns 0 exactly if the vector is full |
| ActorQueue.Vector.PopBack | Fixed/NoBug1/queue_cyclic.c:52-54 | Removes and returns the last element, or null exactly if there is none |
| Actor.EveryState | Fixed/NoBug1/queue_cyclic.c:139-218 | For any capacity, in every state of every run: every message taken is -1 or an index of the counts; when the actor has stopped, each count and the lost messages of its kind make up the number of senders; a lost -1 or number means that the queue has no room for all of them; the run is bounded but for spurious wake-ups; and when nobody can move the senders have exited, and the actor sleeps if -1 was lost and has stopped otherwise |
| Actor.StoppedCounts | Fixed/NoBug1/queue_cyclic.c:171-175 | Whenever the actor has stopped, -1 was not lost, and every count is the number of senders but for lost messages, although batches are consumed in reverse and -1 comes first out of its batch |
| Actor.SenderKeeps | Fixed/NoBug1/queue_cyclic.c:139-144 | Every step of a sender keeps: what was sent is queued, in the batch, counted or lost, -1 is behind everything, and a sleeping actor has an empty queue or a signal due |
| Actor.ActorKeeps | Fixed/NoBug1/queue_cyclic.c:146-169 | Every step of the actor keeps the same |
| Actor.QuietEnd | Fixed/NoBug1/queue_cyclic.c:146-169 | When nobody can move, all senders have exited; the actor sleeps with main waiting for it if -1 was lost, and otherwise has stopped and main has exited |
| ActorRoom.StopIsHeard | Fixed/NoBug1/queue_cyclic.c:146-218 | The actor has stopped at the end of every run if and only if the capacity is at least senders * kinds + 1 |
| ActorRoom.UnheardStop | Fixed/NoBug1/queue_cyclic.c:203-218 | Otherwise there is a run in which -1 is lost and the actor sleeps for ever |
| ActorRoom.CountsAreRight | Fixed/NoBug1/queue_cyclic.c:171-175 | In every run every count is right whenever the actor has stopped, if and only if the capacity is at least senders * kinds (or 0, when the actor never stops) |
| ActorRoom.WrongCount | Fixed/NoBug1/queue_cyclic.c:171-218 | Otherwise there is a run in which the actor stops with a number counted too rarely |
| ActorRoom.RoomIsNeeded | Fixed/NoBug1/queue_cyclic.c:91-93 | No run loses a message if and only if the capacity is at least senders * kinds + 1 |
| ActorRoom.LateActor | Fixed/NoBug1/queue_cyclic.c:203-218 | There is a run in which the actor is late: everything is sent while the queue is never emptied |
| Merging.Merge | Faulty/OneBug/MergeSort.c_:9-26 | In place on the array: the range becomes the merge of its two parts and nothing else changes |
| Merging.MergeSort | Faulty/OneBug/MergeSort.c_:28-48 | In place on the array: the range becomes sorted and nothing else changes |
| Merging.SortedIsStable | Faulty/OneBug/MergeSort.c_:28-48 | The result is sorted, has the same items, and keeps the order of equal keys |
| Merging.StableIsUnique | Faulty/OneBug/MergeSort.c_:28-48 | There is no other arrangement with these properties |
| Merging.MergedKeyed | Faulty/OneBug/MergeSort.c_:19-22 | On equal keys a merge takes the left items first |
| Merging.MergedOrdered | Faulty/OneBug/MergeSort.c_:19-24 | The merge of two sorted sequences is sorted |
| ForkJoin.FinalState | Faulty/OneBug/MergeSort.c_:28-48 | However the threads of the tree interleave, the first n items end stably sorted and the rest as before |
| ForkJoin.EveryState | Faulty/OneBug/MergeSort.c_:28-48 | In every state of every run the cells behind the first n are unchanged, somebody can move until the root has ended, and the number of steps is bounded |
| ForkJoin.WritesOwnRange | Faulty/OneBug/MergeSort.c_:36-40 | A step of a thread or a descendant writes nothing outside the range of the thread |
| ForkJoin.ReadsOwnRange | Faulty/OneBug/MergeSort.c_:36-40 | A step depends on nothing outside that range, so siblings cannot influence each other |
| ForkJoin.StepGood | Faulty/OneBug/MergeSort.c_:13-45 | Every step of every thread keeps: each ended thread's range is sorted, each merging thread's range holds a prefix of its merge |

## Left out

- Printing, sleeping, clocks, random numbers, argument parsing and file input: keys, jobs, items,
  tasks, hash coefficients and the filter are parameters.
- Failure of malloc, pthread_create and the initialisation calls, and all memory release.
- Machine-integer overflow and floating-point rounding: integers are unbounded, temperatures are
  reals, and quotients of the Bloom hashes are exact. That the plate gets steady is therefore a
  statement about reals.
- Chameneos.EveryState: assumes at least two creatures and at least one meeting. Without a creature
  nothing happens; one creature is covered by Chameneos.LoneCreature and no meeting by
  Chameneos.NeverDone.
- Chameneos.FinalState: all creatures are created before the first step; pthread_self is the index
  of the creature, and the copy of the creature that is passed to a meeting is the creature itself.
- StoreBuffering.FencedRunIsSafe: the modes MODE_MEMBARRIER and its variant without registration are
  not modelled; they always abort or lack the fence. The compiler barrier is modelled as no fence.
- StoreBuffering.Progress: shows that the end can always be reached; a scheduler that lets one thread
  poll for ever is not excluded, and by OnlyPollingGoesOn nothing else goes on for ever.
- ThreadPool.EveryState: the sum that a worker prints is not modelled; a run of the program ends with the workers
  asleep, since main never submits (-1, -1).
- BloomInversion.Inverter.Reconstruct0: a write behind the words of M is reported as an overrun and
  changes nothing; what the program overwrites there is not modelled.
- BloomInversion.Inverter.Reconstruct1: localCount is added to numMemberships without a separate lock
  step, since each reconstruct call is one step.
- BloomRuns.EndOfRun: each call of reconstruct0 or reconstruct1 is one step, although the writes to M
  and checked are not guarded; words are arrays of bits instead of integers with masks.
- BloomRuns.ReconstructZeros: says nothing about the printed size, in which bit 0 and the bits behind
  nVertices count too.
- BloomCounts.EndOfRun: count_ones of a word belongs to code that is not shown and is taken to be the number
  of its set bits.
- JobList.JobList.Insert: the strcpy into five characters is a copy of the whole name.
- HashTable.Retrieve: works on the addresses and entries of a state in which no thread writes any
  more, as after the put phase; each index allocates the entry with its own address.
- SortedList.LengthCountsCalls: each list call is one guarded step; Populate_list, whose loop draws
  random numbers until enough differ, is replaced by an arbitrary increasing initial list.
- HotPlate.EveryState: the workers exist before the first barrier, which none of them can pass alone;
  their bounds are parameters, and the mutex around reading them is left out, as nobody writes them.
  The copying of one cell and the test of one cell are one step each; no other thread writes then.
  The count of cells above 50 in steady is never used.
- PlateRuns.ProgramReturns: covers sizes from 5 on whose last row but one is not a multiple of 20, as
  for 16384 rows; PlateRuns.ReturnsAlways covers all sizes.
- BoundedBuffer.Completed: covers runs without spurious wake-ups; with them a run is bounded by
  BoundedBuffer.EveryState.
- Actor.EveryState: joining all senders is one waiting step of main, and so is joining the actor;
  taking a batch is one step under the mutex.
- ForkJoin.EveryState: both children are created in one step; a child that is created but not yet
  scheduled behaves the same. Items carry a tag beside their number so that the order of equal numbers
  can be told.
- Merging.MergeSort: runs the right child after the left one; ForkJoin covers the other orders.
- The loops of some functions are split into methods of their own: ClearSolutions and the Probe
  methods, Find, LinkIn and Unlink, FirstRow, HotRow and ColdColumn, CopyPart, CopyRest,
  CopyRests and MergeBoth, ClearIfZero and ClearBit, Overwrite and Append.
- The other programs of the repository: duplicates, counters, reductions, searches, and stubs whose
  behaviour depends on timing or on code that is not shown.

# dios: a model of the driver core, its wait latch and its benches' pipelines

dios is a bounded asynchronous storage driver. A submission reserves a slot in a
generational slab, joins a ready order, and is carried out either by an *eager*
backend (locked prepare, unlocked execute with a retry loop, locked publish) or by a
*ring* (locked fill, kernel, locked reap with resubmission). One mutex guards the slab,
the generational file table, the ready order, a backlog of completions and the
completions deferred by dropped read leases. The rules that hold across these
structures appear in the code only as asserts scattered over its locked regions.

This project models that core and proves that the asserts it models cannot fire, with one
exception whose condition it states exactly, together with the laws they stand for. It also
models the latch a pool parks on, the mock disk, the page-seeded fill, the read probe's pipeline
and the CSV rows the benches exchange.

## How the model is put together

- `Core` is the driver as a state machine: 21 steps, one for each locked region, each
  unlocked backend action and each caller action. `Offered` says what the surroundings
  may do (the kernel answers each request once, in any order; callers use what they own;
  threads interleave freely). `AssertsHold` collects the asserts, expects and indexing
  of the regions modelled. `Apply` is the effect. `Reachable` is every state of every run.
- `Invariant` states conservation: every slot, token, lease, staging slot and file
  generation is accounted for exactly once, by counting. `PreserveSlab`,
  `PreserveLease` and `PreserveFiles` keep its parts; `Steps` keeps the whole.
- `Theorems`, `Runs`, `Lifetimes`, `Attempts`, `Delivery`, `Results` and `Reaping` read off the
  laws of every reachable state, of whole runs, of one operation's life, attempts and result, of
  everything callers are told, and of the two-phase reap. `Teardown` is the measure and the lease account of the drop loops,
  `Capacity` the exact capacity law. `Witness` is a concrete run in which two expected laws
  fail.
- `Tables` and `Driver` are the code's own form: classes with the fixed arrays and
  queues, updated in place. A ghost `System` in `DriverCore` makes each method a step of
  the state machine, so every law above holds of the class; its loops (`FillRing`,
  `ReapRing`, `PollRing`, `PollEager`, `Quiesce`, `QuiesceRing`) are proved against the
  machine's runs.
- `Ops`, `Retry` and `MockDisk` are one operation carried out: the per-completion rule of the
  ring, its run to the end, the eager retry loop, and the bytes on the simulated disk.
- `WaitProtocol`, `Probe`, `Seeded` and `Csv` stand alone.

## What the proofs found

- *Every modelled assert holds in every run but one.* Apart from a 32-bit generation running
  out (which the code checks for), the only assert a run can reach is "continuation owns the
  original generation" during teardown of an eager driver
  (`Theorems.NoAssertFires`; a run that reaches it is
  `Witness.TeardownCanContinueAnAbandonedRead`). For the call itself the condition is exact:
  `Driver.DriverCore.Quiesce` stops at that assert if and only if, when it is called, an
  operation is ready and a partial vector read waits in the backlog. With nothing ready it
  returns before draining; without a partial read it drains everything. A ring driver never
  stops there (`Driver.DriverCore.QuiesceRing`).
- *In-flight plus backlog plus deferred can exceed the capacity*, by the leased completions
  in the backlog, because a held read still counts as in flight
  (`Witness.NaiveSumCanExceedCapacity`). A configuration has such a run if and only if its
  driver is eager and has room for a file and for a vector read of two frames, that is at
  least two frames of at most 64 KiB each (`Capacity.RetainedCanExceedIff`); and a run gets
  there only after submitting a vector read (`Capacity.PointOperationsFit`). The law that
  always holds leaves leased completions out (`Theorems.CapacityHolds`); admission is only
  ever too strict: the slot it promises is always there. "Eager" means the backend built off
  Linux, where a caller that finds no staging slot pumps.
- The reader of CSV rows does not insist on the expected field count: rows with fewer
  fields are accepted too. `Csv.RoundTrip` states the exact condition.

## Model

| member | source | states |
|---|---|---|
| `Types.UserDataRoundTrip` | src/driver.rs:885-904 | a token survives the 64-bit user-data word, so distinct tokens have distinct words |
| `Ops.RingProgressFrame` | src/driver.rs:2788-2829 | a completion entry changes nothing but offsets, length and retries; the end of the source range and the file-to-source distance stay fixed; a resubmission has strictly less left to do |
| `Retry.AttemptBound` | src/driver.rs:2788-2829 | an operation ends after at most retry bound + 1 attempts, a write of L >= 1 bytes after at most L + retry bound, for every fault sequence whose short counts fit |
| `Retry.AttemptBoundSharp` | src/driver.rs:2788-2829 | that bound is attained for every length and retry bound |
| `Retry.TailAt` | src/driver.rs:2467-2485 | the k-th write request starts where the first k acknowledgements end, in source and file |
| `Retry.WriteTailsTile` | src/driver.rs:2788-2815 | write tails tile the buffer without gap or overlap; success is reported exactly when every byte was acknowledged, and reports the full length |
| `Retry.WriteTotals` | src/driver.rs:2788-2815 | the acknowledged bytes of a write never exceed its length, and reach it exactly on success |
| `Retry.RunOutcomeFits` | src/driver.rs:2774-2815 | no run reports more bytes than were asked for, for every fault sequence whose short counts fit |
| `Retry.PlainRunDecided` | src/driver.rs:2774-2829 | for every fault sequence a read or barrier comes to what the first fault says that is not transient or that the retries do not cover, else to its full length; interruptions are transient, would-block only on a read; the attempts, which each ask for the whole again, and the faults left over are exact |
| `Retry.WriteRunDecided` | src/driver.rs:2788-2829 | for every fault sequence a write goes on through interruptions and short counts and ends with the full length once nothing is left, at a hard error or would-block with that error, or at an attempt that moved nothing with no retry left, as interrupted or as an I/O error |
| `MockDisk.Context.AdvanceWrite` | src/driver.rs:1412-1422 | the tail of a short write keeps the end of the source range and the file-to-source distance |
| `MockDisk.PersistMeaning` | src/mock.rs:1047-1062 | a stored write is the data in its range, the old bytes around it and zeros in any gap |
| `MockDisk.PersistTwice` | src/mock.rs:1047-1062 | storing a prefix and then its continuation is storing both at once |
| `MockDisk.MockExecutor.Attempt` | src/mock.rs:1066-1135 | an attempt uses one injected fault, answers as the ring's next result would, and lands exactly the bytes it reports |
| `MockDisk.CompleteIsRun` | src/driver.rs:2788-2829 | accumulating requests and disk contents along the way gives the ring run's outcome, requests and acknowledged bytes |
| `MockDisk.LandedGrows` | src/mock.rs:1047-1062 | each attempt extends the landed prefix by exactly the bytes it acknowledged |
| `MockDisk.WriteLands` | src/mock.rs:1047-1062 | for every fault sequence whose short counts fit, exactly the acknowledged prefix of the buffer lands, the whole buffer on success |
| `MockDisk.Execute` | src/driver.rs:2088-2138 | the eager retry loop and the ring agree: same outcome, same number of attempts, same offsets and length asked for each time, same faults left; the outcome is what the faults decide, by kind; byte-level contents after a write |
| `MockDisk.ExecuteAttempt` | src/driver.rs:2095-2100 | one attempt of the loop is one completion entry of the ring |
| `MockDisk.ExecuteLoop` | src/driver.rs:2088-2138 | the loop ends, where the whole run ends |
| `MockDisk.WriteAllBlocking` | src/driver.rs:2236-2272 | at most one outer iteration, no progress assert fires; whole buffer stored on success, a proper prefix on error, and the error is that of the attempt that failed; nothing for a dead file or an empty buffer |
| `Core.FirstReusable` | src/driver.rs:2887-2900 | the lowest slot that is free or closed |
| `Steps.ReserveFileKeeps` | src/driver.rs:1629-1635 | reserving a file keeps the invariant |
| `Steps.RegisterFileKeeps` | src/backend/uring.rs:233-248 | registration finds the backend entry empty |
| `Steps.AbortFileKeeps` | src/driver.rs:2976-2990 | aborting an open finds the file live and idle |
| `Steps.CloseKeeps` | src/driver.rs:1742-1753 | closing a handle finds its generation live and open |
| `Steps.RetireBackendKeeps` | src/backend/eager.rs:181-190 | retirement removes exactly the generation being closed |
| `Steps.FinishRetireKeeps` | src/driver.rs:2944-2958 | finishing a retirement finds the file closing with nothing in flight |
| `Steps.WriteSlotKeeps` | src/pool/write_arena.rs:78-136 | a dropped staging slot is released exactly once |
| `Steps.SeekKeeps` | src/pool/write_arena.rs:78-92 | looking for a staging slot, slot by slot, keeps the invariant |
| `Steps.AdmitReserves` | src/driver.rs:1911-1924 | after the capacity test the free list has an empty slot |
| `Steps.SubmitKeeps` | src/driver.rs:1911-1947 | a submission, admitted or refused, passes its asserts and keeps the invariant |
| `Steps.PrepareKeeps` | src/driver.rs:2043-2083 | the head of the ready order is queued, owns its destination or staging range, and becomes the only attempt on its slot |
| `Steps.PostKeeps` | src/mock.rs:1723-1805 | an answer may be posted anywhere in the completion queue |
| `Steps.FinishIsSafe` | src/driver.rs:1655-1711 | ending an attempt finds the slot active, the file counted and the staging slot taken |
| `Steps.CqeFacts` | src/driver.rs:2515-2566 | the head of the completion queue carries the live token of an active operation and a result that fits it |
| `Steps.ReapKeeps` | src/driver.rs:2515-2566 | reaping any entry passes every assert and keeps the invariant |
| `Steps.PublishKeeps` | src/driver.rs:2185-2234 | publishing, to the caller or into the backlog, finds room and keeps the invariant |
| `Steps.DrainKeeps` | src/driver.rs:2675-2686 | draining the backlog keeps every lease matched |
| `Steps.FlushKeeps` | src/driver/read_vector.rs:544-559 | flushing a deferred completion moves its file's retirement, never loses it |
| `Steps.TeardownKeeps` | src/driver.rs:845-864 | the invariant survives into teardown |
| `Steps.ReleaseIsSafe` | src/driver/read_vector.rs:390-411 | giving back a held slot finds its destination gone, its file counted and room to defer |
| `Steps.DropLeaseKeeps` | src/driver/read_vector.rs:363-380 | dropping a lease, live or stale, is always safe |
| `Steps.LeaseIsLive` | src/driver/read_vector.rs:497-520 | a lease a caller holds before teardown names a held slot with the same bytes remaining |
| `Steps.ContinueKeeps` | src/driver/read_vector.rs:497-542 | continuing a live partial read passes every assert, the ready bound included |
| `Steps.AbandonKeeps` | src/driver/read_vector.rs:591-606 | abandoning a held slot is safe in any order |
| `Steps.StepKeeps` | src/driver.rs:1629-2715 | every step but continuing an abandoned read passes every assert and keeps the invariant |
| `Theorems.InitHolds` | src/driver.rs:1026-1036 | the empty driver satisfies the invariant |
| `Theorems.RunKeeps` | src/driver.rs:1629-2715 | every run keeps it |
| `Theorems.ReachableInv` | src/driver.rs:1629-2715 | every reachable state satisfies it |
| `Theorems.NoAssertFires` | src/driver.rs:2515-2566 | whatever the surroundings do next and whatever order completions come in, the asserts hold if and only if the step is not the one exception |
| `Theorems.OnePlace` | src/driver.rs:2431-2566 | each slot is in exactly one of: free list, ready order, one outstanding attempt or completion entry under its live token, one read lease; during teardown, when an abandoned lease may outlive its slot, each occupied slot is |
| `Theorems.TokensAreFresh` | src/driver.rs:1928-1947 | an admitted operation's token was never issued before; a refused submission leaves the whole system, staging slot included, unchanged |
| `Theorems.ExactlyOnce` | src/driver.rs:1655-1711 | each issued token ends exactly once and its slot is freed exactly once; a point operation ends only by its terminal completion, in the step that frees its slot |
| `Delivery.DeliveredOnce` | src/driver.rs:2185-2234 | each terminal result has reached a caller once or waits in the backlog once, never both; a point operation's exactly when the operation is gone |
| `Delivery.StepDelivers` | src/driver.rs:2675-2686 | every step keeps what was emitted equal to what was delivered plus what waits |
| `Results.EveryResultIsTrue` | src/driver.rs:1655-1711 | everything a caller was told or will be is about an admitted request, of its kind, within its length, with a lease exactly where one is due; a ring write is reported whole or as an error |
| `Results.BytesAreReportedOnce` | src/driver/read_vector.rs:497-542 | over all its completions an operation never reports more bytes than it covers; until a vector read is over, the bytes reported and those still asked for make up the whole |
| `Results.ReapAnswers` | src/driver.rs:2515-2566 | a completion entry is retried exactly on an interruption, a would-block of a read or an empty write with a retry left, or a short write; else its caller is told the errno, the bytes read, or a write in full |
| `Results.PassAnswers` | src/driver.rs:2515-2566 | a pass takes entries in order, its caller is told exactly its completions, and these answer the entries one by one, all but retryable ones |
| `Results.CarriedConcerns` | src/driver.rs:2185-2203 | the completion of an unlocked execution tells how that execution came out, and what was executed is what the caller asked for; a write in full or as an error |
| `Results.DroppedLeaseDefers` | src/driver/read_vector.rs:390-411 | a dropped live lease defers one completion of the request's file: an I/O error if the read was to go on, else the very result its caller was told |
| `Results.StepReports` | src/driver.rs:1629-2715 | every step keeps the account of what callers were told |
| `Theorems.InflightIsExact` | src/driver.rs:2907-2938 | a file's count is the number of occupied slots naming that exact generation, and the total the number of occupied slots |
| `Theorems.CapacityHolds` | src/driver.rs:1911-1924 | in-flight, final backlog and deferred completions fit the capacity; the backlog bound holds; a live file's submission is refused as full exactly by the capacity test |
| `Theorems.AdmissionIsExact` | src/driver.rs:1911-1924 | stale, full and admitted each hold exactly by liveness and the capacity test, and the reserved slot is empty |
| `Theorems.NaiveSum` | src/driver.rs:2216-2234 | in any state, counting all backlog completions exceeds the capacity by at most the leased ones |
| `Capacity.VectorsExistIff` | src/driver/read_vector.rs:413-455 | the limits of two to thirty-two frames, of the frames there are and of 128 KiB leave room for a vector exactly if two frames fit |
| `Capacity.RetainedCanExceedIff` | src/driver.rs:1911-1924 | a configuration has a run in which in-flight plus backlog plus deferred exceed the capacity if and only if it is that of an eager driver with room for a file and for two frames in a vector |
| `Capacity.NoVectorsNoScatter` | src/driver/read_vector.rs:443-491 | where no vector can be built none is ever submitted |
| `Capacity.PointOperationsFit` | src/driver.rs:2216-2234 | as long as no vector read was submitted the sum stays within the capacity, teardown included |
| `Capacity.SlotsTaken` | src/pool/write_arena.rs:78-92 | callers can take every staging slot, each the first that is free |
| `Capacity.FilledUp` | src/driver.rs:1911-1947 | with every staging slot taken and looked for in vain, every number of operations up to the capacity, a two-frame vector read first, is admitted on one open file |
| `Capacity.PumpedShort` | src/driver.rs:1982-1998 | a caller that finds no staging slot free pumps the vector read, which ends short, out of the full driver: the sum is one above the capacity |
| `Theorems.ClosesExactlyOnce` | src/driver.rs:1742-1759 | each closed generation becomes due exactly once, when nothing is in flight, is retired exactly once, and is in exactly one retiring place between |
| `Theorems.ClosedOnceDrained` | src/driver.rs:2907-2958 | with no retirement under way, a closed file reads as closed exactly when no operation names it |
| `Theorems.RetiringSlotIsNotReused` | src/driver.rs:2887-2958 | the slot of a closing file is not reopened, and the backend holds exactly that generation until told to drop it |
| `Theorems.DueIsNew` | src/driver.rs:2928-2938 | a step that makes a file due makes it due for the first time |
| `Theorems.RetireScratchFits` | src/driver.rs:2568-2574 | recorded due files have distinct slots, so recording one more never overflows |
| `Theorems.StagingSlotsAreExclusive` | src/driver.rs:2688-2692 | no two live operations, nor an operation and a caller, hold one staging slot, and it stays taken |
| `Runs.FileIdentity` | src/driver.rs:2887-2990 | over any run: generations only grow, an id that is not live never is again, one that reads as closed does for ever |
| `Runs.OpensAreDistinct` | src/driver.rs:2887-2900 | two opens of a run never mint the same id |
| `Runs.ReapMakesProgress` | src/driver.rs:2788-2829 | remaining bytes plus retries plus one, summed over live operations, strictly falls with each reaped entry, and a fill or a kernel answer leaves it as it is |
| `Attempts.StepLeft` | src/driver.rs:2515-2566 | a reaped entry costs its operation one of the entries it may still take, and no step gives a point operation any back |
| `Attempts.ReapsAreBounded` | src/driver.rs:2515-2566 | in every run of the driver, from its submission on, at most length plus retry bound completion entries of a write are reaped, and retry bound plus one of a point read or a barrier |
| `Runs.DueStays` | src/driver.rs:2583-2646 | whatever interleaves, a file stays due until its own retirement starts |
| `Runs.ScratchNeverOverflows` | src/driver.rs:2568-2646 | with any interleaving between recordings, the retire scratch has room for the next file, in a slot of its own |
| `Runs.ReadyMoves` | src/driver.rs:1937-1947 | the ready order loses its head to a prepare and gains an operation where a submission is placed or at its end; nothing else moves in it |
| `Runs.ServedInOrder` | src/driver.rs:2041-2083 | over any run of a backend that appends, an operation with i others before it is taken by the prepare after the first i |
| `Lifetimes.RingAdvances` | src/driver.rs:2788-2815 | a resubmitted entry is the same request with a prefix done |
| `Lifetimes.StepFollows` | src/driver.rs:1629-2715 | every step either leaves a live token its request, moved on by the bytes done, or forgets the token for good |
| `Lifetimes.RunFollows` | src/driver.rs:1629-2715 | so does every run |
| `Lifetimes.RequestIsConserved` | src/driver.rs:1782-1906 | from admission on, across retries, short writes and continuations, a live operation has the submitted file, kind, lease and staging slot; a point read its offsets and length unchanged; a write or vector read a suffix of its range, its destination moved along: its requests tile the range |
| `Lifetimes.SubmitFills` | src/driver.rs:1782-1947 | an admitted request is stored under the next token of its slot, in the terms of the request |
| `Lifetimes.LiveServesItsRequest` | src/driver.rs:1782-1906 | in every reachable state each occupied slot serves the request its token was issued for |
| `Lifetimes.TokenIsNeverReused` | src/driver.rs:1038-1058 | once an operation is over, no later state of the run contains its token |
| `Lifetimes.EndReleases` | src/driver.rs:2688-2692 | the step that ends a write releases its staging slot |
| `Lifetimes.StagingReleasedAtTheEnd` | src/driver.rs:1701-1710 | a live write's staging slot becomes free in exactly the step that frees the operation, never across a resubmission |
| `Lifetimes.EagerWritesAreWhole` | src/driver.rs:1839-1879 | the eager backend executes each write as submitted, its whole staging slot |
| `Witness.NaiveSumCanExceedCapacity` | src/driver.rs:1982-1998 | a concrete run, pumping with the staging slot taken, to a state with in-flight plus backlog one above the capacity |
| `Witness.TeardownCanContinueAnAbandonedRead` | src/driver.rs:2018-2039 | a reachable teardown state in which continuing fires the generation assert |
| `Witness.ContinuingFiresIffPartial` | src/driver/read_vector.rs:561-606 | after abandoning, each leased completion drained, wherever it stood in the backlog, meets that assert if and only if it is a partial read |
| `Reaping.ReapIsSafe` | src/driver.rs:2515-2566 | the head of the queue can always be reaped |
| `Reaping.PassFacts` | src/driver.rs:2515-2566 | a pass respects its limit, emits at most one completion per entry, and stops only at the limit, at the end of the queue, or at its one retirement |
| `Reaping.TwoPassesAreOne` | src/driver.rs:2583-2646 | stopping at the first retirement and resuming with the rest of the limit gives the same completions, retirements and state as one pass |
| `Reaping.PassRetires` | src/driver.rs:2568-2646 | a pass records each file once, newly due, pairwise distinct, and makes no other file due |
| `Reaping.PassWork` | src/driver.rs:2583-2646 | a pass pays one unit of remaining work for each entry |
| `Tables.CompletionSlab.constructor` | src/driver.rs:1026-1036 | every slot empty at generation zero, slot zero on top of the free list |
| `Tables.CompletionSlab.Contains` | src/driver.rs:1038-1041 | true exactly for the token of the fill occupying the slot |
| `Tables.CompletionSlab.Reserve` | src/driver.rs:1047-1049 | pops the free list, or reports it empty |
| `Tables.CompletionSlab.Fill` | src/driver.rs:1051-1058 | fills an empty slot under the next generation |
| `Tables.CompletionSlab.Peek` | src/driver.rs:1062-1067 | the occupant of a slot |
| `Tables.CompletionSlab.Store` | src/driver.rs:1071-1076 | an in-place change of one occupant leaves all else alone |
| `Tables.CompletionSlab.Reclaim` | src/driver.rs:1078-1084 | empties the slot, keeps its generation, returns token and occupant |
| `Tables.ResizeKeepsIdentity` | src/driver.rs:2869-2885 | a successful resize preserves liveness and closedness of every issued id, and is refused if one would be lost |
| `Tables.FileTable.Open` | src/driver.rs:2887-2900 | takes the first reusable slot under a new generation, or reports none |
| `Tables.FileTable.IsLive` | src/driver.rs:2902-2905 | liveness of an id |
| `Tables.FileTable.IsClosed` | src/driver.rs:2911-2915 | closedness of an id, through reuse |
| `Tables.FileTable.TotalInflight` | src/driver.rs:2907-2909 | the sum over all slots |
| `Tables.FileTable.OnSubmit` | src/driver.rs:2917-2926 | counts one more on a current generation |
| `Tables.FileTable.OnComplete` | src/driver.rs:2928-2938 | counts one less and reports exactly a drained closing file |
| `Tables.FileTable.FinishRetire` | src/driver.rs:2944-2958 | a drained closing file becomes closed |
| `Tables.FileTable.Close` | src/driver.rs:2960-2974 | a live file becomes closing and is reported due exactly when idle |
| `Tables.FileTable.AbortOpen` | src/driver.rs:2976-2990 | an idle live file becomes free |
| `Tables.FileTable.TryResized` | src/driver.rs:2869-2885 | a copy with new room, refused exactly if it would cut off a used slot |
| `Driver.DriverCore.constructor` | src/driver.rs:1026-1036 | the empty driver, at the start of every run |
| `Driver.DriverCore.ReserveFile` | src/driver.rs:1629-1635 | is the reserve step; the id returned is the one that is opening |
| `Driver.DriverCore.RegisterFile` | src/backend/uring.rs:233-248 | is the register step; the entry was empty |
| `Driver.DriverCore.AbortFile` | src/driver.rs:1648-1651 | is the abort step |
| `Driver.DriverCore.Close` | src/driver.rs:1742-1753 | is the close step, and reports due exactly when it made the file due |
| `Driver.DriverCore.RetireFile` | src/backend/eager.rs:181-190 | removes the entry of the very generation being closed |
| `Driver.DriverCore.Retire` | src/driver.rs:1755-1759 | backend then table; the file then reads as closed and nothing else changed |
| `Driver.DriverCore.CloseFile` | src/driver.rs:1742-1759 | the whole of close: the file reads as closed at once exactly if no operation names it, and nothing else is left due |
| `Driver.DriverCore.AdmitOp` | src/driver.rs:1911-1924 | answers as the admission rule and takes the reserved slot; reserving never fails after the test |
| `Driver.DriverCore.CommitOp` | src/driver.rs:1928-1947 | fill, count and queue in one region |
| `Driver.DriverCore.SubmitOp` | src/driver.rs:1782-1947 | is the submit step; refusal changes nothing; admission returns a never-issued token, stores the request's own offsets, length, lease and staging slot, and places it in the ready order |
| `Driver.DriverCore.PrepareNext` | src/driver.rs:2043-2083 | is the prepare step; the token is that of the head of the ready order, was not in flight and now is |
| `Driver.DriverCore.FinishOp` | src/driver.rs:1655-1711 | holds or frees the slot as the ending rule says, returns the completion and exactly the file it drained |
| `Driver.DriverCore.PublishOp` | src/driver.rs:2185-2234 | is the publish step, into the batch or the backlog, within its bound, and reports exactly the file that became due |
| `Driver.DriverCore.Route` | src/driver.rs:2515-2566 | requeues or finishes the operation a completion entry names |
| `Driver.DriverCore.ReapOne` | src/driver.rs:2515-2566 | is the reap step, with the completion and the retirement it yields |
| `Driver.DriverCore.ReapRingLocked` | src/driver.rs:2515-2566 | the loop is one pass of the machine, completions in order |
| `Driver.DriverCore.ReapRing` | src/driver.rs:2583-2646 | two phases deliver what one pass would, within the limit, in answer to the entries taken; callers are told exactly that; the scratch fits; every recorded file is retired and none is left due |
| `Driver.DriverCore.RetireAll` | src/driver.rs:2583-2646 | every file of the scratch reads as closed and is no longer due, nothing else moved |
| `Driver.DriverCore.ReleaseReadLease` | src/driver/read_vector.rs:390-411 | gives the slot back and defers one completion of its file, an I/O error for a partial read, its own result for a kept one |
| `Driver.DriverCore.DropLease` | src/driver/read_vector.rs:363-380 | is the drop step, for live and stale leases |
| `Driver.DriverCore.ContinueReadVector` | src/driver/read_vector.rs:497-542 | stops at the generation assert exactly if the operation has left its slot; otherwise it is the continue step: the rest is queued last, with fresh retries, and the state, length and queue asserts hold |
| `Driver.DriverCore.DrainOne` | src/driver.rs:2675-2686 | hands out the oldest waiting completion |
| `Driver.DriverCore.FlushOne` | src/driver/read_vector.rs:544-559 | is the flush step; a drained file is now due |
| `Driver.DriverCore.FlushDeferred` | src/driver/read_vector.rs:544-559 | the bounded loop leaves no deferred completion, retires every file they drained and moves nothing else |
| `Driver.DriverCore.DrainCompletionBacklog` | src/driver.rs:2675-2686 | moves as many completions as fit, in order, and callers are told exactly those; each lease is then its caller's |
| `Driver.DriverCore.FillRing` | src/driver.rs:2431-2492 | turns the first min(cap, ready) operations, in order, into answers behind those already posted, without changing the remaining work |
| `Driver.DriverCore.FillOne` | src/driver.rs:2431-2492 | one of them: the head of the ready order, under its live token |
| `Driver.DriverCore.PostRequest` | src/mock.rs:1723-1805 | the answer joins the completion queue |
| `Driver.DriverCore.BeginPoll` | src/driver.rs:1957-1958 | every poll first settles the deferred completions and takes the waiting ones, oldest first, up to the batch |
| `Driver.DriverCore.FillAndReap` | src/driver.rs:2313-2322 | exactly min(room, ready) operations are filled and min(room, queue) entries reaped; the completions answer those entries in order |
| `Driver.DriverCore.PollRing` | src/driver.rs:2299-2323 | its batch is exactly what callers are told: what left the backlog, then the answers to the entries reaped, whose number is exact; no file that became due is left due; each entry reaped pays for itself in remaining work |
| `Driver.DriverCore.DrainRing` | src/driver.rs:2299-2323 | polling until idle terminates whatever the kernel answers, and leaves only held reads in flight |
| `Driver.DriverCore.AllocWriteSlot` | src/pool/write_arena.rs:78-92 | takes the first free staging slot, or finds them all taken, one look at a time |
| `Driver.DriverCore.TrySlot` | src/pool/write_arena.rs:83 | one exchange takes a slot exactly if it was free |
| `Driver.DriverCore.DropWriteSlot` | src/pool/write_arena.rs:254-260 | is the drop step; the slot was taken |
| `Driver.DriverCore.PumpOneToBacklog` | src/driver.rs:2206-2213 | runs the head of the ready order; the completion that joins the backlog tells how that came out; nobody is told yet, and the load comes down; with nothing ready nothing changes |
| `Driver.DriverCore.PublishPump` | src/driver.rs:2216-2234 | appends exactly that completion to the backlog, and leaves no file due |
| `Driver.DriverCore.AllocWriteSlotWait` | src/driver.rs:1982-1998 | pumping terminates and only adds to the backlog; unless time runs out it ends without a slot only when none is free and nothing is ready |
| `Driver.DriverCore.Execute` | src/driver.rs:2088-2138 | over a mock disk with any fitting faults it is a run of the very operation given; the outcome fits, and a successful write reports all of it |
| `Driver.DriverCore.ExecuteHead` | src/driver.rs:2043-2138 | the head of the ready order is executed as its caller asked |
| `Driver.DriverCore.ExecuteOne` | src/driver.rs:1951-1968 | the head of the ready order is executed and its caller told exactly how that came out, a successful write in full; the load comes down and the batch stays usable |
| `Driver.DriverCore.PublishOne` | src/driver.rs:2185-2203 | publishes and retires, keeping every lease of the batch; its caller is told exactly that completion |
| `Driver.DriverCore.PollEager` | src/driver.rs:1951-1968 | its batch is exactly what callers are told: what left the backlog, then for the head of the ready order, in order and as many as fit, how each execution came out; no file is left due; each completion pays for itself in load |
| `Driver.DriverCore.ContinueVectors` | src/driver/read_vector.rs:561-589 | continues or drops every lease of a batch without adding load; the generation assert fires exactly if a resumable read of it was abandoned |
| `Driver.DriverCore.SettleCompletion` | src/driver/read_vector.rs:561-589 | the same for its last completion, leaving the others as they were |
| `Driver.DriverCore.AbandonOne` | src/driver/read_vector.rs:591-606 | is the abandon step |
| `Driver.DriverCore.AbandonHeld` | src/driver/read_vector.rs:591-606 | afterwards no slot is held, and the ready order and the backlog are as before |
| `Driver.DriverCore.BeginTeardown` | src/driver.rs:845-864 | is the teardown step |
| `Driver.DriverCore.DrainBatch` | src/driver.rs:2029-2030 | a teardown poll and the settling of its batch fire the generation assert exactly if the batch takes a partial read out of the backlog |
| `Driver.DriverCore.QuiescePass` | src/driver.rs:2028-2038 | one pass of the loop does so too, and otherwise leaves no read held and makes progress |
| `Driver.DriverCore.Quiesce` | src/driver.rs:2018-2039 | called in any state with no attempt executing: the generation assert fires if and only if an operation is ready and a partial read waits in the backlog; otherwise the loop ends with nothing in flight and the idle assert never fires |
| `Driver.DriverCore.QuiesceRing` | src/driver.rs:2652-2671 | over the mock ring no assert fires, in whatever state it is called; it ends drained exactly if nothing is in flight, which is how it ends unless its time runs out |
| `Driver.InflightIffReady` | src/driver.rs:2018-2022 | with no attempt executing and no read held, something is in flight exactly when something is ready |
| `Teardown.ReachableBacklog` | src/driver/read_vector.rs:561-589 | in every run the waiting completions teardown would continue are exactly the partial reads |
| `Teardown.NoneHeldMeansOrphaned` | src/driver/read_vector.rs:591-606 | once no slot is held, every partial read waiting in the backlog has been abandoned |
| `Teardown.BatchDrain` | src/driver.rs:2675-2686 | draining after abandonment keeps all leases of the batch distinct and marks its partial reads as abandoned |
| `Teardown.BatchPublish` | src/driver.rs:2185-2203 | publishing keeps the batch's leases, and a partial read it adds can be continued |
| `Teardown.BatchReap` | src/driver.rs:2515-2566 | so does reaping any completion entry |
| `Teardown.PassBatch` | src/driver.rs:2583-2646 | so does a whole pass, and each entry pays for itself in load |
| `Teardown.FinishLoad` | src/driver.rs:1655-1711 | every ending of an attempt, short and kept included, brings the load down, also when a short read will be continued with fresh retries |
| `Teardown.BacklogStaysEmpty` | src/driver.rs:2206-2234 | only an eager driver with room for a file ever has a completion in the backlog |
| `Teardown.ReadyMeansInflight` | src/driver.rs:2018-2022 | what waits in the ready order is in flight |
| `Teardown.PublishLoad` | src/driver.rs:2185-2203 | each executed operation brings the load down |
| `Teardown.ReapLoad` | src/driver.rs:2788-2829 | each reaped entry does, retryable ones included |
| `Teardown.ContinueLast` | src/driver/read_vector.rs:497-542 | a resumable completion of a batch finds its operation exactly if it was not abandoned, and continuing it costs no load |
| `Teardown.DropLast` | src/driver/read_vector.rs:363-380 | any lease of a usable batch can be dropped, at no load |
| `Teardown.IdleMeansHeld` | src/driver.rs:2018-2039 | with nothing ready, executing or posted, every operation in flight is a held read |
| `Teardown.IdleMeansDrained` | src/driver.rs:2018-2039 | and with none held, nothing is in flight |
| `WaitProtocol.CountersKeep` | src/product.rs:223-230 | every step keeps the park counters balanced, also between the unlocked updates of a finishing wait |
| `WaitProtocol.ThreadsKeep` | src/product.rs:285-299 | every step keeps each parked thread's generation account |
| `WaitProtocol.RunKeeps` | src/product.rs:274-431 | every interleaving keeps both |
| `WaitProtocol.StepIsSafe` | src/product.rs:415-431 | the park count never underflows |
| `WaitProtocol.PendingReleaseWakesAll` | src/product.rs:285-299 | while a ring release is pending no waiter is asleep and every parked one finds its generation passed |
| `WaitProtocol.StillArmedMeansNothingHappened` | src/product.rs:324-371 | a parked thread's armed generation is current if and only if no wake or publish came since; then nothing is pending or unconsumed |
| `WaitProtocol.SleeperIsNotified` | src/product.rs:274-283 | a sleeper that was signalled has a notification coming, and it leaves nobody asleep |
| `WaitProtocol.LeavesByWakeIffSignalled` | src/product.rs:337-371 | a waiter leaves by wake exactly if signalled since it armed, by timeout exactly if not and out of time, and otherwise sleeps again with nothing changed |
| `WaitProtocol.DecidesByWakeIffSignalled` | src/product.rs:415-431 | the same for a platform wait, and what it consumes |
| `WaitProtocol.GenerationsAdvance` | src/product.rs:319-322 | over any run generations only grow and the consumed one never passes the current one |
| `WaitProtocol.EarlierWakeIsSeen` | src/product.rs:324-329 | a wait that starts with an unconsumed wake, however long ago it came, never parks |
| `WaitProtocol.PendingReleaseIsSeen` | src/product.rs:285-336 | from a publish to the next clear, whatever happens between, no wait parks |
| `WaitProtocol.ParksIffNothingToSee` | src/product.rs:308-342 | a wait parks if and only if all was consumed and nothing is pending; so it parks after consuming with nothing pending, and after consuming and clearing in either order |
| `WaitProtocol.ParksBalance` | src/product.rs:223-230 | entered parks are exited plus still parked, and exits are wake plus timeout exits, when nobody is mid-finish; publishers never see too small a count |
| `WaitProtocol.WaitState.BumpForWake` | src/product.rs:274-277 | the locked half of a wake: one generation on, nothing consumed |
| `WaitProtocol.WaitState.PublishRingPendingAndWakeIfParked` | src/product.rs:285-299 | a release is pending, the generation moves on exactly if someone is parking, and nobody is asleep |
| `WaitProtocol.WaitState.ClearRingPending` | src/product.rs:308-312 | nothing is pending, and nothing else changed |
| `WaitProtocol.WaitState.Consume` | src/product.rs:319-322 | everything so far is consumed, and nothing else changed |
| `WaitProtocol.WaitState.BeginWait` | src/product.rs:389-407 | parks exactly with nothing unconsumed and nothing pending; consumes what there is; counts the park exactly if it parks |
| `WaitProtocol.WaitState.RecheckWait` | src/product.rs:341-371 | leaves exactly if signalled or out of time, counted as the one or the other |
| `WaitProtocol.WaitState.PlatformWoken` | src/product.rs:410-412 | true exactly if signalled since arming |
| `WaitProtocol.WaitState.DecidePlatformWait` | src/product.rs:415-421 | woken exactly if signalled, and then consumes, else not |
| `WaitProtocol.WaitState.SubtractPark` | src/product.rs:422-424 | one park fewer in progress, without underflow |
| `WaitProtocol.WaitState.ExitPark` | src/product.rs:425 | one exit more |
| `WaitProtocol.WaitState.RecordExit` | src/product.rs:426-430 | one wake exit or one timeout exit more, as told |
| `Probe.SetBitSets` | benches/mmap_workloads/probe.rs:195-197 | or-ing a bit into the mask sets that bit and no other |
| `Probe.SetBitCounts` | benches/mmap_workloads/probe.rs:195-198 | and raises its population count by one if it was clear |
| `Probe.OnesBelow` | benches/mmap_workloads/probe.rs:198 | a full count means every request of the group was seen |
| `Probe.TokenRoundTrip` | benches/mmap_workloads/probe.rs:289-291 | packing and unpacking group, slot and request are inverse both ways |
| `Probe.CompleteMeaning` | benches/mmap_workloads/probe.rs:181-205 | a slot becomes ready exactly when its last request is seen |
| `Probe.UnseenBounds` | benches/mmap_workloads/probe.rs:276-302 | outstanding requests lie between one and all per slot being read |
| `Probe.BalancedStage` | benches/mmap_workloads/probe.rs:276-302 | staging keeps outstanding equal to the unseen requests, pending groups equal to the slots being read, and the history exact |
| `Probe.BalancedComplete` | benches/mmap_workloads/probe.rs:313-336 | any completion in flight, in any order, meets every assert of its slot and keeps the same |
| `Probe.BalancedRelease` | benches/mmap_workloads/probe.rs:340-352 | so does releasing a ready slot, consumed unless a read failed |
| `Probe.ReadProbe.constructor` | benches/mmap_workloads/probe.rs:253-274 | an idle probe |
| `Probe.ReadProbe.Stage` | benches/mmap_workloads/probe.rs:276-302 | the submission queue always has room; exactly the next group is staged |
| `Probe.ReadProbe.Push` | benches/mmap_workloads/probe.rs:287-300 | exactly the group's tokens join the requests in flight, none of them there before |
| `Probe.ReadProbe.CompleteOne` | benches/mmap_workloads/probe.rs:313-336 | takes one completion; unless it moved its exact share of the group it is a failure, by its errno or as an I/O error |
| `Probe.RememberedMeaning` | benches/mmap_workloads/probe.rs:330-334 | a failure is remembered exactly if some completion was bad, and it is the last such one |
| `Probe.ReadProbe.Poll` | benches/mmap_workloads/probe.rs:304-338 | any submission result and any set of arrived completions keep the books, what was taken before included; a slot becomes ready only if a group is counted |
| `Probe.ReadProbe.RefillSlot` | benches/mmap_workloads/probe.rs:342-371 | no slot stays ready, none idle before the last group; the refill assert holds |
| `Probe.ReadProbe.Refill` | benches/mmap_workloads/probe.rs:340-373 | the same for all slots |
| `Probe.DrainedProbe` | benches/mmap_workloads/probe.rs:396-406 | with nothing outstanding, every group was completed and consumed exactly once and the ring is empty |
| `Probe.OnlyStallsTimeOut` | benches/mmap_workloads/probe.rs:380-395 | the poll budget outlasts every run that does not stall |
| `Probe.ReadProbe.Run` | benches/mmap_workloads/probe.rs:376-412 | success means every group staged, completed and consumed exactly once and every completion good; a failure names the last completion that was not; both leave the ring empty; a timeout means a stall; no assert fires |
| `Seeded.FillSeededPrefix` | src/mock.rs:1873-1894 | the chunked loop, early stop included, is the per-byte rule |
| `Seeded.FilledPage` | src/mock.rs:1880-1891 | every byte of a seeded page numbered within 32 bits is its seed, every other byte is left |
| `Seeded.FillSplits` | src/mock.rs:1873-1894 | filling a prefix and then the remainder is filling the whole |
| `Seeded.FillChunksIsFill` | src/mock.rs:1019-1045 | a vector read's destinations together hold what one flat read would |
| `Csv.Encode` | benches/pinned_frame_retention/artifacts.rs:1480-1489 | refused exactly for quotes and line breaks; wrapped in quotes exactly if it holds a comma, else itself |
| `Csv.EncodeRow` | benches/pinned_frame_retention/artifacts.rs:411-415 | a row is refused exactly if one of its fields is |
| `Csv.ReadFields` | benches/pinned_frame_retention/artifacts.rs:1491-1525 | the character loop computes the recursive reading of the line, errors included |
| `Csv.ScanText` | benches/pinned_frame_retention/artifacts.rs:1513-1521 | ordinary text joins the field up to the byte limit and is refused beyond it |
| `Csv.ScanField` | benches/pinned_frame_retention/artifacts.rs:1498-1521 | an encoded field reads back as itself if it fits, wherever commas are |
| `Csv.ScanRow` | benches/pinned_frame_retention/artifacts.rs:1491-1525 | an encoded row continues any row read so far |
| `Csv.RoundTrip` | benches/pinned_frame_retention/artifacts.rs:1480-1525 | reading back a written row gives it exactly if it has at most the expected fields and each fits the byte limit; otherwise it is refused, never as badly quoted |
| `Csv.ScanConserves` | benches/pinned_frame_retention/artifacts.rs:1491-1525 | whatever line is accepted, its fields joined by commas are the line without its quotes, its quotes come in pairs, every field fits and there are not too many |
| `Csv.OddQuotesAreRefused` | benches/pinned_frame_retention/artifacts.rs:1498-1525 | a line with an odd number of quotes is never accepted, one with an even number never called unterminated |
| `Csv.BadQuotesAreNamed` | benches/pinned_frame_retention/artifacts.rs:1498-1525 | a quoted field cut off is refused as unterminated, a quote after text as misplaced, in any field of the line |

## Left out

- Real I/O: io_uring, eventfd, file opening, direct-I/O probing and the alignment refusals of direct files; the kernel and the executor appear as nondeterministic but honest answers.
- Memory ordering: atomics are sequentially consistent steps and each mutex region is atomic.
- Clocks: deadlines and sleeps are nondeterministic choices or absent.
- Pool internals, read frames and their contents: a read destination is only owned or not, and a vector is only its remaining length, so of src/driver/read_vector.rs the asserts inside `push`, `bind`, `prepare`, `record_completion` and `take_completed` and the check of `continue_read_vector` that the suffix belongs to its lease are not modelled.
- Driver identity checks (`assert_own`, foreign handles and slots), sync modes, builders, error texts, observation counters and bench hooks: single-branch facts.
- `try_reconfigure` as a step of a run: its table resize is `Tables.FileTable.TryResized`.
- The pool's own limits on vector reads (readahead width, reads in flight, the frame watermark) and which frames a read owns: a driver accepts any vector within its own limits here.
- Integer widths other than the 32-bit generations: offsets, lengths, park counters and the wake generation are unbounded, so their wrap-around is not modelled.
- Probe buffers, the file offsets of its reads, page checks, checksums and statistics; `Probe` keeps the counters its control flow or asserts use.
- The condition-variable loop of `wait` is split at its wait point into `BeginWait` and `RecheckWait`, because other threads act there; `notify_all` is its own step.
- Theorems.CapacityHolds: does not count leased backlog completions, because with them the sum can exceed the capacity; `Theorems.NaiveSum` bounds the excess.
- Driver.DriverCore.QuiesceRing: does not model a real kernel's delays, only the mock ring, which answers each request at once, and an expiring budget as a choice at each pass.
- Driver.DriverCore.Quiesce: covers a driver no other thread is executing for, as `Drop` has it to itself.
- Driver.DriverCore.AllocWriteSlotWait: does not model waiting for another thread to release a slot once nothing is left to pump; it comes back instead.

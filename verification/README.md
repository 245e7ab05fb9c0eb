# Verified model of the Zeitwork control plane

The project models, in Dafny, the parts of Zeitwork whose guarantees depend on several
functions at once, and proves those guarantees for every input, run or reachable state.

* **Scheduler.dfy**: the reconcile scheduler: two shared maps, one dispatcher, six workers.
* **VmLifecycle.dfy, VmService.dfy, VmRestart.dfy, VmDispatch.dfy**: `reconcileVM`, the goroutine that waits
  for the hypervisor, and `reconcileVmDelete`, racing over `vmToCmd` and `vmToTap`; the methods
  as written; when a VM can be started again; and the two machines run together, so that the scheduler supplies the
  one-run-at-a-time guarantee the VM reconciler relies on.
* **BuildLease.dfy, BuildService.dfy**: the time-bounded build lease with any number of servers
  that believe themselves leader, crashes and clock ticks; and the reconciler that uses it.
* **IpAllocator.dfy, AddressPlan.dfy, AddressService.dfy**: /31 pairs inside per-server /20s;
  the transactions that allocate them statement by statement under advisory locks.
* **Failover.dfy, FailoverTransaction.dfy**: the nested loops that delete, recreate and re-point
  the VMs of dead servers, with an exact account of what is moved and what is lost.
  **FailoverRoom.dfy, FailoverRuns.dfy, FailoverOutcome.dfy**: every run the queries allow, and
  which outcomes are possible and which certain, told from the tables before the call.
* **DomainVerification.dfy, DomainService.dfy**: concurrent verifications of same-name domains.
* **HandOver.dfy, HandOverSafety.dfy, HandOverService.dfy**: handing a project's custom domains
  from one deployment to the next, any number of runs interleaved statement by statement.
* **Numerals.dfy, UuidText.dfy, Base58.dfy, Base58Laws.dfy**: the three base58 codecs.
* **LogWriter.dfy**: line splitting of build output.
* **BuildLogSections.dfy, BuildLogLaws.dfy**: grouping buildx output into sections and steps.
* **DnsResolver.dfy**: following CNAMEs. **Uniques.dfy**: lists without repetition.

Protocols are state machines: a `State`, an `Event` per statement or critical section, `Enabled`
and `Next` (or a `Step` relation), an invariant kept by every event, and theorems about runs. The
methods of the source stand beside them as class methods over the same tables and are proved to
take exactly the machine's steps when nothing interferes. Tables are maps; one SQL statement is
one step; a failed statement changes nothing; an advisory transaction lock is held to the end of
its transaction. Foreign calls (hypervisor, disk, VSOCK, network, DNS, health checks, Docker) are
outcomes that a run may meet, in every combination.

## What the code does and its comments do not say

* `ServerAllocateIPRange` passes the next range through `host(...)`, which drops the mask, so from
  the second server on the cast gives a /32 instead of the documented /20 (`WrittenQueryStarves`).
  The generated Go text of the query moreover ends in a stale `FROM lock`. The address plan is
  proved for both readings of the query.
* A /20 has room for 2047 VMs, not the 2048 of the comment (`ExactCapacity`).
* `replaceVM` deletes the old VM before it looks for a target, and its failure is logged and
  committed. Each failing server therefore loses one VM for good; it is not "retried on the next
  tick", because the server is by then marked dead and no longer found. When that happens
  follows from the tables before the call (`OutcomeExactly`). Take the load at which the first
  eligible server is full. No run loses a VM exactly if the listed work fits below it, and every
  run loses one exactly if the work does not even fit up to one VM above it. Only in between,
  which is at most one VM per eligible server, does it depend on which of equally loaded servers
  the query returns (`ChoiceDecides`). Where all eligible servers are full at the same load there
  is nothing in between, and the free addresses decide. In particular an eligible server without
  addresses, like each but the first under the query as written, loses work however many free
  addresses the others have, once it is the one least loaded.
* A hypervisor whose `cmd.Start` failed, or whose status update right after it failed, is never
  started again by the same service process: the map entry stays, nobody waits for the process,
  and every later run takes the VM for running (`FailedStartIsFinal`). Nothing else has that effect
  (`StuckExactlyBy`), and every other VM can be started again (`RestartInEveryRun`).
* A build run that lasts longer than 30 minutes can turn a failed build succesful
  (`OverstayingRunRevivesAFailedBuild`). The status life cycle holds exactly as long as no run
  writes over a status other than the one it read (`LifecycleExactly`).
* A domain row brought back while its own verification is in flight can end verified beside
  another (`ResurrectionInFlightBreaksUniqueness`).
* Hand-overs of two deployments of one project may run at the same time, since runs are
  serialised per deployment only, and can then leave the domain on a stopped deployment
  (`RaceLeavesAGap`); an interrupted hand-over is never resumed (`InterruptedForGood`).
* The order guarantee in the header comment of the log parser speaks of first log lines; the code
  orders sections by first headers. `OrderFailsExactly` says when the two differ, and
  `OrderGuaranteeFails` shows that they can.
* `NormalizeHostname` removes one trailing dot, not all, so it is not idempotent; the resolver
  results do not assume that it is.
* The Go encoder writes the all-zero UUID as "1", the web app as sixteen 1s (`GoAgrees`); the web
  app's two codecs read each other's output in one direction only (`LongReadsShort`).

## Model

| member | source | states |
|---|---|---|
| ReconcilerScheduler.Scheduler.Schedule | internal/reconciler/reconciler.go:39-43 | A call overwrites the next run of its id and touches nothing else. |
| ReconcilerScheduler.Scheduler.CollectDue | internal/reconciler/reconciler.go:55-71 | One pass moves exactly the due, idle ids into `running`, clears their next run, and returns each of them once, in any order. |
| ReconcilerScheduler.Scheduler.FinishFailed | internal/reconciler/reconciler.go:99-109 | A failed run frees its id and schedules it 5 seconds on, over whatever was scheduled meanwhile. |
| ReconcilerScheduler.Scheduler.FinishSucceeded | internal/reconciler/reconciler.go:114-121 | A successful run frees its id and keeps a next run asked for during the run; only without one is it an hour on. |
| ReconcilerScheduler.StepInv | internal/reconciler/reconciler.go:55-76 | Every step of dispatcher, workers and callers keeps `running` the disjoint union of unsent batch and ids in workers' hands. |
| ReconcilerScheduler.SingleFlight | internal/reconciler/reconciler.go:55-76 | In every reachable state `running` is exactly the unsent batch plus the ids the six workers hold, disjoint and without repetition: no object is reconciled by two workers at once. |
| ReconcilerScheduler.WakeSurvivesStep | internal/reconciler/reconciler.go:99-121 | No step but a dispatch of the id (or a call with the zero time) takes a pending wake-up away; both endings of a run keep one. |
| ReconcilerScheduler.NoLostWakeup | internal/reconciler/reconciler.go:39-43 | A wake-up asked for after the latest dispatch of an id stays pending until its next dispatch, over any run. |
| ReconcilerScheduler.WakeTimeKept | internal/reconciler/reconciler.go:99-121 | The pending time is the time asked for, unless a failure of a run of that very id replaced it by its retry time. |
| ReconcilerScheduler.WakeupAnswered | internal/reconciler/reconciler.go:60-69 | A wake-up is answered by a later dispatch, at the latest by the first pass that finds the id idle and the time passed. |
| ReconcilerScheduler.NeverForgotten | internal/reconciler/reconciler.go:39-76 | Every id ever scheduled is, in every later state, running or has a next run. |
| ReconcilerScheduler.MeasureStep | internal/reconciler/reconciler.go:73-76 | Each hand-off and each finish lowers 2*batch + busy workers by exactly one; a Schedule call neither changes it nor extends the batch. |
| ReconcilerScheduler.DrainAccount | internal/reconciler/reconciler.go:73-76 | Between two passes the measure counts exactly the hand-offs and finishes that happened. |
| ReconcilerScheduler.SentInOrder | internal/reconciler/reconciler.go:74-76 | Ids leave a batch in order, one hand-off each. |
| ReconcilerScheduler.BatchDrains | internal/reconciler/reconciler.go:53-77 | When the next pass comes, exactly the ids of the last batch have been handed over, each once and in order. |
| ReconcilerScheduler.DrainNeverStuck | internal/reconciler/reconciler.go:74-88 | While a batch is undrained or a worker busy, some hand-off or finish is possible. |
| VmLifecycle.NextInv | internal/zeitwork/vm.go:33-240 | Every statement of reconcileVM, its exit goroutine, reconcileVmDelete, a service stop, or anybody's row update keeps the lifecycle invariant. |
| VmLifecycle.AtMostOneLiveProcess | internal/zeitwork/vm.go:71-82 | In every run at most one live, unkilled hypervisor exists per VM, and only for a row of this server. |
| VmLifecycle.OneServerPerVm | internal/zeitwork/vm.go:39-42 | Two servers that know the same server of a VM never both have a live hypervisor for it, at whatever moments of their runs they are looked at. |
| VmLifecycle.ServerFixed | internal/zeitwork/vm.go:39-42 | The server of a row never changes in a run. |
| VmLifecycle.MapsAgree | internal/zeitwork/vm.go:128-168 | `vmToCmd` and `vmToTap` have the same keys in every reachable state. |
| VmLifecycle.TapNumbersRepeat | internal/zeitwork/vm.go:146 | Tap names repeat with period 2^32 exactly: the counter is a wrapping int32. |
| VmLifecycle.TapsNeverShared | internal/zeitwork/vm.go:146-168 | No two VMs hold one tap name until 2^32 hypervisors were started. |
| VmLifecycle.StaleWaiterHarmless | internal/zeitwork/vm.go:183-237 | An exit goroutine, however late, removes no entry but its own command's and no registration of a run that has passed registering. |
| VmLifecycle.WaiterWrites | internal/zeitwork/vm.go:183-237 | Each step of the exit goroutine, on the fields: the status of its own VM's row if the exit is recorded, that VM's registration, its two entries, and nothing of another VM. |
| VmLifecycle.RecordedExitStays | internal/zeitwork/vm.go:193-216 | A recorded exit is the row's status until another step writes it, in every run. |
| VmLifecycle.RowChangedBy | internal/database/sql/vm.sql:34-37 | No step changes a row but for its status, except the user's deletion. |
| VmLifecycle.ProcessChangedBy | internal/zeitwork/vm.go:128-183 | Processes are started only by the run of their command, end by themselves, and are killed only by a stop, a delete run or a launch that holds them. |
| VmLifecycle.CleanedStep | internal/zeitwork/vm.go:302-338 | No step starts a process for a VM whose delete run has ended. |
| VmLifecycle.DeletionFinal | internal/zeitwork/vm.go:302-338 | After a delete run has ended the VM has no entry, no registration and no live process in any later state, and no later step starts one. |
| VmLifecycle.CondemnedStays | internal/database/sql/vm.sql:34-37 | A soft-deleted row stays soft-deleted. |
| VmLifecycle.CondemnedRunDeletes | internal/zeitwork/vm.go:44-46 | A run dispatched after the soft delete that reads the row takes the delete path, even if an older run was mid-start. |
| VmLifecycle.DeletedForGood | internal/zeitwork/vm.go:44-46 | Putting both together: the first such run cleans the VM up for good. |
| VmLifecycle.FailedStartSticks | internal/zeitwork/vm.go:165-174 | A failing cmd.Start leaves its map entries behind with nobody waiting for the command. |
| VmLifecycle.UnwatchedSticks | internal/zeitwork/vm.go:175-183 | So does a failing status update after a successful start: the goroutine that would wait is not started. |
| VmLifecycle.FailedStartIsFinal | internal/zeitwork/vm.go:71-82 | After either failure no later step of the server starts a process for that VM, even once the unwatched process has exited: every run finds the entry and stops there. |
| VmRestart.StuckExactlyBy | internal/zeitwork/vm.go:164-183 | A step makes a VM stuck if and only if it is such a failure or takes the VM out for deletion. |
| VmRestart.EntryStep | internal/zeitwork/vm.go:183-237 | Every step keeps: no map entry outlives its goroutine, and goroutines wait for processes that were started. |
| VmRestart.StuckIffUnwatched | internal/zeitwork/vm.go:71-82 | Between runs a VM with an entry is stuck if and only if no goroutine waits for the entry. |
| VmRestart.StuckForEver | internal/zeitwork/vm.go:71-82 | A stuck VM whose process is gone has none in any continuation. |
| VmRestart.UnstuckCanStart | internal/zeitwork/vm.go:33-240 | From any state, with any run of it in progress, a VM that is wanted and not stuck has a continuation that brings it up. |
| VmRestart.RestartInEveryRun | internal/zeitwork/vm.go:33-240 | In every reachable state, for a live row of this server whose process is gone: a later start is possible if and only if the VM is not stuck. |
| VmService.Service.ReconcileVMUpdateStatusIf | internal/zeitwork/vm.go:353-361 | Decides on the run's own copy, writes the table, returns the written row. |
| VmService.Service.TakeEntries | internal/zeitwork/vm.go:130-135 | Both map entries go together and the old command is returned. |
| VmService.Service.OnExit | internal/zeitwork/vm.go:183-237 | The goroutine records failed or stopped in the row when its two statements succeed, takes the registration and both entries of its own VM, and touches nothing else; these are the three waiter steps of the machine. |
| VmService.Service.RecordExit | internal/zeitwork/vm.go:191-216 | An exit with an error makes the row failed, a clean one stopped, and a failing fetch or update leaves it as it was. |
| VmService.Service.ReconcileVmDelete | internal/zeitwork/vm.go:302-338 | Registration, entries and process are gone afterwards; nothing else changes. |
| VmService.DeleteAlone | internal/zeitwork/vm.go:302-338 | The machine's four delete steps, run alone, have the effect of the method. |
| VmService.HealthyRunStartsTheVm | internal/zeitwork/vm.go:33-240 | A run that returns no error, for a live row of this server without an entry, brings the VM up: one more hypervisor, entered in both maps with its tap, registered and waited for, the row running, all else unchanged. |
| VmService.NilMeansEntered | internal/reconciler/reconciler.go:99-121 | A run of this server that returns no error leaves an entry if and only if the row is not deleted. |
| VmService.Service.ReconcileVM | internal/zeitwork/vm.go:33-46 | For every combination of failing calls: the error returned and all fields afterwards, told from those before; and it ends where the machine's steps end when nothing interferes. |
| VmService.Service.ReconcileLiveVM | internal/zeitwork/vm.go:48-82 | The same, with its errors, from the status updates and the already-running check on. |
| VmService.Service.StartHypervisor | internal/zeitwork/vm.go:84-126 | The same, with its errors, from preparation and registration on. |
| VmService.Service.CleanUpAndLaunch | internal/zeitwork/vm.go:128-146 | The same, with its errors, from the stale clean-up and the new tap on. |
| VmService.Service.LaunchCommand | internal/zeitwork/vm.go:164-183 | The same, with its errors, for the map entries, the start and the last status update. |
| VmDispatch.DispatchIsAllowed | internal/reconciler/reconciler.go:74-76 | An id the dispatcher hands over is not being reconciled: the step the VM machine needs is allowed. |
| VmDispatch.SchedulerSuppliesTheGuard | internal/reconciler/reconciler.go:45-123 | The VM half of every run under the real dispatcher and its six workers is a run of the VM machine, guards included. |
| VmDispatch.OneLiveProcessUnderScheduler | internal/zeitwork/vm.go:33-240 | Under the real scheduler no VM ever has two live hypervisors, with no assumption about concurrent runs. |
| BuildLease.LeaseStep | internal/database/sql/build.sql:12-33 | Each claim, release, crash, tick and status write keeps: a run still in its 30 minutes owns the lease it took. |
| BuildLease.RowWrittenBy | internal/database/sql/build.sql:12-69 | Who writes the row and what: a claim that is due, the release of an own lease, the three status marks and the user; a crash writes nothing. |
| BuildLease.MutualExclusion | internal/database/sql/build.sql:12-26 | Of all runs anywhere that have claimed the build at most one is within 30 minutes of its claim: two leaders, crashes, restarts and overstaying runs included. |
| BuildLease.ClaimOnlyFromOverstayed | internal/database/sql/build.sql:21-25 | Another server gets the lease of an active run only if that run has overstayed. |
| BuildLease.ClaimFromOwner | internal/database/sql/build.sql:16-26 | A claim against the owner succeeds if and only if the owner overstayed and the build is neither terminal nor deleted. |
| BuildLease.LeaseNotDropped | internal/zeitwork/build.go:164-174 | No step of another run, a late release included, drops the lease of a run in time. |
| BuildLease.SoundExactly | internal/zeitwork/build.go:51-158 | A step of any run, of any age, moves the status forward, keeps the row consistent and an image once set, if and only if it is no harmful write: a mark whose run remembers another status than the row now has, and which does not write what is there already. |
| BuildLease.LifecycleExactly | internal/zeitwork/build.go:51-158 | So all steps of a trace are sound if and only if none of them is a harmful write. |
| BuildLease.StatusStep | internal/database/sql/build.sql:56-69 | A step in which only a run that owns the lease writes a status is sound, and what lease owners remember of the row stays true. |
| BuildLease.Lifecycle | internal/zeitwork/build.go:51-158 | If statuses are written only by runs that own the lease at that moment, a build goes pending, building, then succesful or failed; terminal states are final; image set iff succesful, failure time set iff failed. |
| BuildLease.InTimeIsRightful | internal/database/sql/build.sql:21-25 | Runs within 30 minutes of their claims write only while they own the lease. |
| BuildLease.ImageThenNeverFailed | internal/zeitwork/deployment.go:97-122 | A build on which a deployment saw an image is never found failed later. |
| BuildLease.OverstayingRunRevivesAFailedBuild | internal/zeitwork/build.go:56-63 | A complete trace from a fresh build in which the second of two servers fails the build and the overstaying first one then makes it succesful: a harmful write, by a run without the lease. |
| BuildService.UndisturbedRunProgresses | internal/zeitwork/build.go:36-162 | A run that claims a free build and meets no failing statement moves the status exactly as what it finds says, keeps image, times and status consistent, changes nothing when the status stays, and leaves no lease behind. |
| BuildService.Service.ClaimLease | internal/database/sql/build.sql:12-26 | The claim returns the claimed row exactly when the row is claimable and otherwise changes nothing. |
| BuildService.Service.ReleaseBuildLease | internal/zeitwork/build.go:164-174 | The release ends the run and clears the lease only if it is still this server's. |
| BuildService.Service.ReconcileBuild | internal/zeitwork/build.go:31-49 | For every combination of failing calls: the row afterwards, told from the row before; and the method ends where the machine's steps end when nothing interferes. |
| BuildService.Service.InspectBuild | internal/zeitwork/build.go:51-80 | The same from the terminal and stuck checks on, with the active-builds entry and both deferred calls. |
| BuildService.Service.ProcessBuild | internal/zeitwork/build.go:82-162 | The same for creating the VM, waiting, and running the build with its two endings. |
| BuildService.LeftStatus | internal/zeitwork/build.go:36-162 | A whole run changes the status only to building with a new VM, to failed, or to succesful with the image built, and leaves terminal and deleted rows alone. |
| IpAllocator.NextIpLeast | internal/database/sql/vm.sql:19-32 | The query returns the least free odd offset below the last one, and no row exactly when all are taken. |
| IpAllocator.ExactCapacity | internal/database/sql/vm.sql:23-32 | For a /m range, 2 <= m <= 31, it fails exactly when 2^(31-m)-1 candidates are taken; 2047 for a /20, by counting. |
| IpAllocator.SizeFits | internal/database/sql/vm.sql:24 | The four-byte cast of the series bound overflows exactly for masks shorter than 2. |
| IpAllocator.GatewayIsOtherHalf | internal/zeitwork/vm.go:106-107 | The gateway is the other half of the VM's own /31, in the same range, and no VM of any server has it as its address (section 2.1 of RFC 3021). |
| IpAllocator.BlocksDisjoint | internal/database/sql/vm.sql:21-23 | Different allocatable addresses have disjoint /31 blocks. |
| AddressPlan.NthValid | internal/database/sql/server.sql:78-94 | The k-th range is a proper range as long as its base is an IPv4 address. |
| AddressPlan.WithinPrivateTen | internal/database/sql/server.sql:79-81 | The k-th documented range lies in 10/8 (section 3 of RFC 1918) if and only if k < 4080. |
| AddressPlan.WrittenQueryStarves | internal/database/sql/server.sql:82-94 | The query as written agrees with its comment on the first server only; every later range is a /32 and has no address for a VM. |
| AddressPlan.TopIsLast | internal/database/sql/server.sql:83-91 | The row with the highest range is the last one registered, so the next range is that of the next position. |
| AddressPlan.NextInv | internal/zeitwork/vm.go:264-294 | Every statement of interleaved registrations, VM creations, failovers and deletions keeps the address plan invariant. |
| AddressPlan.VmChangedBy | internal/zeitwork/vm.go:264-294 | A VM row changes or appears only at the commit of a transaction that deleted or made it, or by its user. |
| AddressPlan.ServerChangedBy | internal/zeitwork/server.go:74-99 | A known server keeps its range for ever; a new one gets the range its own registration was given under the lock. |
| AddressPlan.RangesInOrder | internal/zeitwork/server.go:74-99 | The k-th server registered has the k-th range in every reachable state, whatever ran concurrently. |
| AddressPlan.ServerRangesDisjoint | internal/zeitwork/server.go:74-99 | No address belongs to the ranges of two servers. |
| AddressPlan.LiveVmPlaced | internal/zeitwork/vm.go:264-294 | Every live VM has a known server and an allocatable address of its range. |
| AddressPlan.LiveBlocksDisjoint | internal/zeitwork/vm.go:264-294 | In every reachable state the /31 blocks of live VMs are pairwise disjoint and lie in their own server's range. |
| AddressPlan.FullExactlyAtCapacity | internal/database/sql/vm.sql:19-32 | In every reachable state the allocator finds nothing for a server exactly when it has as many live VMs as the range has room for. |
| AddressService.Store.VMCreate | internal/zeitwork/vm.go:242-299 | The statements of VMCreate, alone: one new row with the least free address, or no change; always steps of the interleaved model. |
| AddressService.AllocationIs | internal/database/sql/vm.sql:19-32 | On the rows: the address found is the least odd offset that no live VM of the server has, and none is found only if live VMs have them all or the mask is shorter than 2. |
| AddressService.Store.RegisterServer | internal/zeitwork/server.go:54-105 | A known server keeps its range; a new one gets the range of its position, and none if and only if that lies beyond IPv4; always steps of the interleaved model. |
| AddressService.Store.TopRange | internal/database/sql/server.sql:89-91 | The selection of the highest range. |
| AddressService.Creates | internal/zeitwork/vm.go:264-294 | Lock, allocate, insert and commit, replayed in the model, add exactly the row. |
| AddressService.Refuses | internal/zeitwork/vm.go:276-278 | A transaction without an address leaves every table and lock as it was. |
| Failover.MoveRows | internal/zeitwork/server.go:273-308 | Replacing one VM extends the account of replaced and lost VMs by exactly that VM, also when it is itself a replacement. |
| Failover.LoseRows | internal/zeitwork/server.go:273-282 | Deleting without replacing moves that VM to the lost ones. |
| Failover.MovePointers | internal/zeitwork/server.go:310-319 | Deployments follow their VM to the replacement and no other pointer changes. |
| Failover.WorkConserved | internal/zeitwork/server.go:238-327 | The multiset of (vcpus, memory, image, port, env) of live, non-terminal VMs is the same afterwards, minus that of the lost ones. |
| Failover.PointersFollowWork | internal/zeitwork/server.go:310-319 | With nothing lost, a deployment that pointed at live work still does, at work of the same specification. |
| Failover.RepointKeepsUnique | internal/zeitwork/server.go:310-319 | Re-pointing keeps deployments injective on VMs. |
| Failover.AddressFound | internal/zeitwork/server.go:284-291 | If eligible servers have room for all listed work, the address lookup of every replacement succeeds. |
| FailoverTransaction.Transaction.ServerFindLeastLoaded | internal/database/sql/server.sql:28-41 | The loop finds an active server with a recent heartbeat whose non-deleted VMs that are neither stopped nor failed are no more than those of any such server, and none exactly when there is no such server. |
| FailoverRuns.TargetIs | internal/database/sql/server.sql:28-41 | Being least loaded and being eligible, in terms of the row fields alone. |
| FailoverRuns.ReplacementIs | internal/zeitwork/server.go:267-327 | A replacement in terms of the rows: the target is active, recent and least loaded; the new row is pending with the old specification; the old row is deleted; exactly the pointers at it move; nothing else changes. |
| FailoverRuns.ReplacementAddress | internal/zeitwork/server.go:284-291 | The address of a replacement is the least odd offset of the target's range that no other live VM of it has. |
| FailoverRuns.FailureIs | internal/zeitwork/server.go:278-291 | A failed replacement in terms of the rows: the old row is deleted and nothing else changes; no server is active and recent, or the chosen one has no odd offset free. |
| FailoverTransaction.Transaction.ReplaceVM | internal/zeitwork/server.go:267-327 | One replacement: the new state in each of its three endings; the old row is deleted in all of them. |
| FailoverTransaction.Transaction.ReplaceDeadServerVMs | internal/zeitwork/server.go:238-263 | Success leaves no live, non-terminal VM on the server and loses nothing; failure loses exactly one VM; either way the VMs were replaced one by one up to the first failure. |
| FailoverTransaction.Transaction.DetectAndFailoverDeadServers | internal/zeitwork/server.go:200-231 | Every old row is untouched, replaced one to one, or lost; work is conserved up to the lost VMs, one per server that failed; exactly the listed servers become dead; new VMs are on servers that were active and recent; the call is one of the runs that OutcomeExactly speaks of; and the tables before it predict when nothing is lost, as Foretold says. |
| FailoverTransaction.FailureExplained | internal/zeitwork/server.go:279-291 | A replacement fails only if no server was eligible or addresses ran short. |
| FailoverRoom.FindsExactly | internal/database/sql/vm.sql:23-32 | A server with fewer working VMs than it has addresses for has one to give; where live VMs have different addresses of their ranges, exactly such a server has. |
| FailoverRoom.RoomMove | internal/database/sql/server.sql:28-41 | Each replacement takes one unit of the room below any bounds on the loads if its server was below its own bound, and none otherwise. |
| FailoverRoom.SlotMove | internal/zeitwork/server.go:284-291 | Each replacement takes exactly its own address out of the free addresses of the eligible servers, so replacements get addresses free at the start and no two the same on one server. |
| FailoverRoom.TidyMove | internal/zeitwork/server.go:284-301 | Each replacement keeps the live addresses of eligible servers distinct and allocatable. |
| FailoverRoom.FreeCount | internal/database/sql/vm.sql:23-32 | Where all eligible servers are full at one common load, the room below it is the number of their free addresses. |
| FailoverRoom.EqualMasksAreCommon | internal/database/sql/server.sql:78-94 | Eligible servers with ranges of one size and only working live VMs have such a common load, the capacity of the range. |
| FailoverRoom.LevelExists | internal/database/sql/server.sql:28-41 | There is exactly one load at which some eligible server is full and below which none is. |
| FailoverRuns.NeverFails | internal/zeitwork/server.go:278-291 | While there is room below a load at which no eligible server is full, a replacement does not fail, whichever least loaded server the query returns. |
| FailoverRuns.GoodChoice | internal/database/sql/server.sql:28-41 | While there is room up to one VM above that load, some least loaded server has an address. |
| FailoverRuns.BadChoice | internal/database/sql/server.sql:28-41 | Once there is no room below it, some least loaded server has none. |
| FailoverOutcome.LossImpossible | internal/zeitwork/server.go:200-263 | If the listed work fits below a load at which no eligible server is full, no run of the failover loses a VM. |
| FailoverOutcome.LosslessNeedsSlots | internal/zeitwork/server.go:200-263 | A run that loses nothing has a free address of its own for every VM of the listed work. |
| FailoverOutcome.LosslessNeedsRoom | internal/zeitwork/server.go:200-263 | If some eligible server is full at a load, a run that loses nothing brings no server more than one VM above it. |
| FailoverOutcome.CanSucceed | internal/zeitwork/server.go:200-263 | Conversely, if the listed work fits that far, some run loses nothing. |
| FailoverOutcome.CanLose | internal/zeitwork/server.go:200-263 | If it does not fit below the load at which the first eligible server is full, some run loses a VM. |
| FailoverOutcome.OutcomeExactly | internal/zeitwork/server.go:200-327 | Over every order of the VMs and every choice among equally loaded targets: some run loses nothing if and only if the listed work fits up to one VM above the load at which the first eligible server is full; every run loses nothing if and only if it fits below that load; and the two bounds differ by at most one VM per eligible server. |
| FailoverOutcome.ChoiceDecides | internal/database/sql/server.sql:28-41 | Between the bounds the query decides: from one concrete state one run replaces every VM and another loses one. |
| FailoverOutcome.PlanIsTidy | internal/zeitwork/vm.go:242-299 | In every reachable state of the address plan live VMs have different addresses of their ranges, as these results ask. |
| FailoverOutcome.Foretold | internal/zeitwork/server.go:200-231 | For every run with no listed server eligible: nothing is lost if the listed work fits below a load at which nobody is full; if nothing is lost, it fits into the free addresses and up to one VM above every load at which some eligible server is full; and where these servers are full at one common load, nothing is lost if and only if their free addresses cover it. |
| FailoverTransaction.Settled | internal/zeitwork/server.go:210-231 | What holds when the transaction commits, whatever was swallowed: the account, conservation up to the lost VMs, and the prediction. |
| DomainVerification.PendingStep | internal/database/sql/domain.sql:12-16 | Every step keeps: a run still holds as pending each rival that was active at its find and has stayed so. |
| DomainVerification.FindHolds | internal/database/sql/domain.sql:12-16 | A find holds exactly the other active rows of the name that was read. |
| DomainVerification.RowChangedBy | internal/zeitwork/domain.go:67-94 | A row is changed only by its user, by a delete of a run that holds it, or by the mark of a run of its own. |
| DomainVerification.ServesByMark | internal/zeitwork/domain.go:92-94 | A domain comes to be active and verified only by the mark of a run of its own. |
| DomainVerification.RivalsStillPending | internal/zeitwork/domain.go:75-91 | Of two active same-name domains whose runs both did their find, one still holds the other as a pending delete. |
| DomainVerification.OneVerifiedPerName | internal/zeitwork/domain.go:67-94 | In every interleaving in which no run marks a row resurrected under it, at most one active domain per name is verified. |
| DomainVerification.OneVerifiedWithoutResurrection | internal/zeitwork/domain.go:67-94 | The same if no row is resurrected while a run of it is in flight. |
| DomainVerification.MarkBreaksExactly | internal/database/sql/zeitwork.sql:6-9 | The first mark that breaks uniqueness is exactly a mark by a run whose row was resurrected under it while a rival is serving. |
| DomainVerification.QuietResurrections | apps/web/server/api/projects/[id]/domains.post.ts:64-80 | Resurrections that avoid rows with a run in flight taint no mark. |
| DomainVerification.ResurrectionInFlightBreaksUniqueness | apps/web/server/api/projects/[id]/domains.post.ts:64-80 | A concrete run in which a resurrection in flight leaves two verified domains of one name. |
| DomainService.Store.ReconcileDomain | internal/zeitwork/domain.go:15-97 | Run alone, an active unverified domain whose DNS matches becomes verified, every other active row of its name is deactivated and unverified, and no other row changes; otherwise nothing changes; always by steps of the machine. |
| DomainService.Store.DeleteConflicts | internal/zeitwork/domain.go:82-91 | The loop deletes exactly the conflicts found. |
| DomainService.Store.VerifyChecked | internal/zeitwork/domain.go:72-94 | Find, deletes and mark, in that order, with the same effect on exactly the rows of the name. |
| DomainService.WonIsAlone | internal/zeitwork/domain.go:72-74 | Afterwards no other active domain has the name. |
| DomainService.WonIs | internal/zeitwork/domain.go:72-94 | The table afterwards, row by row. |
| HandOver.StepInv | internal/zeitwork/deployment.go:180-303 | Every statement of any number of concurrent hand-overs, and everything users, builds and failovers do between them, keeps the hand-over invariant. |
| HandOver.AccountsStep | internal/database/sql/deployment.sql:51-60 | An older deployment that still runs is on the list, was given up on, or started running after the list was made. |
| HandOver.DomainsStep | internal/database/sql/domain.sql:18-24 | A custom domain only ever points at a deployment of its project that was marked running. |
| HandOver.TouchedStep | internal/zeitwork/deployment.go:285-301 | Hand-overs only touch deployments that were marked running, and only VMs made for those. |
| HandOver.DeploymentChangedBy | internal/zeitwork/deployment.go:180-303 | Which statement may change which column of a deployment: running is set by its own run only, stopped by a hand-over or a user. |
| HandOver.DomainChangedBy | internal/database/sql/domain.sql:18-24 | A domain is re-pointed only by a hand-over of its project, and only if it is custom and active. |
| HandOverSafety.NoNewThreat | internal/zeitwork/deployment.go:257-267 | Only a newer deployment of the same project, by taking the domains over, puts a running deployment at risk of being stopped. |
| HandOverSafety.PointTakesAll | internal/database/sql/domain.sql:18-24 | The pointing statement gives the deployment every active custom domain of its project and changes nothing else. |
| HandOverSafety.OrderlyRunIsGapFree | internal/zeitwork/deployment.go:180-303 | If no domain is pointed at a deployment a newer hand-over is about to stop, no state of the run has a custom domain whose deployment a hand-over stopped or whose VM it deleted, at any statement and however hand-overs are interrupted. |
| HandOverSafety.ThreatComesTrue | internal/zeitwork/deployment.go:285-303 | From a domain pointing at such a deployment, at most three statements of the hand-over lead to a gap. |
| HandOverSafety.SafeExactly | internal/zeitwork/deployment.go:180-303 | So a state can run into a gap without re-pointing if and only if some custom domain points at a threatened deployment. |
| HandOverSafety.ExclusiveRunIsGapFree | internal/zeitwork/deployment.go:191-197 | With one hand-over per project at a time and no domain brought back, every state is free of gaps. |
| HandOverSafety.FinishedHasStopped | internal/zeitwork/deployment.go:270-303 | At its end a hand-over leaves an older deployment running only if it gave up on it or that one started meanwhile. |
| HandOverSafety.FinishedAlone | internal/zeitwork/deployment.go:270-303 | Alone and without errors it leaves none. |
| HandOverSafety.InterruptedForGood | internal/zeitwork/deployment.go:59-62 | A hand-over interrupted after marking its deployment running is never resumed, and no domain is ever pointed at that deployment afterwards. |
| HandOverSafety.ReachedOrderly | internal/zeitwork/deployment.go:180-303 | The same for every state an orderly run reaches from empty tables. |
| HandOverSafety.ReachedExclusively | internal/zeitwork/deployment.go:180-303 | From empty tables, one hand-over per project at a time and no domain brought back: no gap in any state, and a hand-over finished without errors leaves no older deployment running. |
| HandOverSafety.RaceLeavesAGap | internal/zeitwork/deployment.go:180-303 | Two concurrent hand-overs of one project, both deployments on their VMs and nothing failing, can leave its domain on a stopped deployment with a deleted VM: a concrete run from empty tables. |
| HandOverService.Service.StopOne | internal/zeitwork/deployment.go:285-301 | One pass of the loop: delete, mark, or give up, with the exact rows and VMs after each ending. |
| HandOverService.Service.StopThem | internal/zeitwork/deployment.go:285-303 | After the loop exactly the listed deployments not given up on are stopped and exactly the VMs whose deletion did not fail are deleted. |
| HandOverService.Service.StopOldDeployments | internal/zeitwork/deployment.go:270-303 | The list is that of the query, and a failing query changes nothing. |
| HandOverService.Service.FinishDeployment | internal/zeitwork/deployment.go:180-197 | For every combination of failing statements, the rows and pointers afterwards, reached by steps of the interleaved model. |
| HandOverService.AfterFinishIs | internal/database/sql/deployment.sql:51-60 | Row by row: the older deployments of the project that were running and neither stopped, failed nor deleted are stopped, except those with a failing statement of their own, and no other row changes but the run's own. |
| HandOverService.CutByIs | internal/zeitwork/deployment.go:285-293 | The VMs deleted are exactly those of these deployments whose deletion did not fail. |
| HandOverService.PointedIs | internal/database/sql/domain.sql:18-24 | Exactly the active custom domains of the project are pointed at the deployment. |
| HandOverService.FinishLeavesOne | internal/zeitwork/deployment.go:192-197 | Without failures no older deployment of the project is running afterwards and the new one is. |
| Numerals.DigitsOfValue | apps/web/shared/utils/uuid.ts:32-38 | Digits without leading zeros are determined by their value. |
| Numerals.ValueOfDigits | apps/web/shared/utils/uuid.ts:64-71 | And the value by the digits. |
| Numerals.DigitsFit | apps/web/shared/utils/uuid.ts:32-38 | A number has at most k digits if and only if it is below base^k. |
| Numerals.ConvertBack | apps/web/shared/utils/uuid.ts:7-94 | Zero-preserving change of base and back is the identity on digit strings of any length. |
| UuidText.DashesRemoved | apps/web/shared/utils/uuid.ts:92-93 | Removing the dashes of the written form gives its digits back. |
| UuidText.ReadWritten | apps/web/shared/utils/uuid.ts:7-12 | A written value reads as a UUID exactly when it has 32 digits, and then as the same digits. |
| UuidText.DashedIsWritten | apps/web/shared/utils/uuid.ts:89-93 | The written form has dashes exactly at 8, 13, 18 and 23 and the lower-case hex digits in order between them. |
| UuidText.UuidCharacters | apps/web/shared/utils/uuid.ts:9-12 | Accepted are exactly the texts of hex digits of either case and dashes with 32 characters besides the dashes. |
| UuidText.SameNumber | apps/web/app/utils/base58.ts:18-19 | Bytes and hex digits denote the same number. |
| Base58.AlphabetInjective | apps/web/shared/utils/uuid.ts:1 | No character of the alphabet occurs twice, so index and symbol are inverse. |
| Base58.Base58Digits | apps/web/shared/utils/uuid.ts:32-38 | The division loop writes the base58 numeral of its input. |
| Base58.Base58Value | apps/web/shared/utils/uuid.ts:64-71 | The accumulation loop computes the value of its text. |
| Base58.UuidToBase58 | apps/web/shared/utils/uuid.ts:7-42 | The encoder: one leading 1 per leading zero byte and the numeral of the rest, or the format error. |
| Base58.Base58ToUuid | apps/web/shared/utils/uuid.ts:48-94 | The decoder with its three errors: empty input, the first bad character, a length other than 16 bytes; a result has the form 8-4-4-4-12. |
| Base58.BigEndianBytes | apps/web/shared/utils/uuid.ts:73-79 | The unshift loop writes the bytes of its number, none for zero. |
| Base58.ReverseInPlace | internal/shared/base58/base58.go:46-49 | The in-place loop reverses the buffer. |
| Base58.Encode | internal/shared/base58/base58.go:15-52 | The Go encoder, digits collected backwards, zeros last, turned round in place. |
| Base58.UuidToB58 | apps/web/app/utils/base58.ts:9-31 | The short encoder. |
| Base58.B58ToUuid | apps/web/app/utils/base58.ts:37-53 | The short decoder: bad characters are errors, and nothing else is; a result has the groups 8-4-4-4 and the rest. |
| Base58.NeverEmpty | apps/web/shared/utils/uuid.ts:40-41 | The fallback for an empty result is never taken. |
| Base58Laws.BytesRoundTrip | apps/web/shared/utils/uuid.ts:7-94 | Decoding an encoding gives the same bytes, for any number of bytes. |
| Base58Laws.TextRoundTrip | apps/web/shared/utils/uuid.ts:7-94 | Encoding a decoding gives the same text, for every text over the alphabet. |
| Base58Laws.UuidRoundTrip | apps/web/shared/utils/uuid.ts:7-94 | base58ToUuid of uuidToBase58 is the same UUID in canonical form, for every UUID spelling accepted. |
| Base58Laws.Base58RoundTrip | apps/web/shared/utils/uuid.ts:7-94 | uuidToBase58 of base58ToUuid is the same text, for every text accepted. |
| Base58Laws.AcceptsExactlyTheEncodings | apps/web/shared/utils/uuid.ts:84-87 | The decoder accepts exactly the encodings of 16-byte values. |
| Base58Laws.DecodedForm | apps/web/shared/utils/uuid.ts:89-93 | A decoded UUID has 36 characters, dashes exactly at 8, 13, 18 and 23, and in order the lower-case hex digits of the sixteen bytes the text encodes. |
| Base58Laws.DecodeErrors | apps/web/shared/utils/uuid.ts:49-87 | Exactly which error the decoder returns, in the order of its checks. |
| Base58Laws.OtherErrors | apps/web/app/utils/base58.ts:10-15 | Exactly which inputs the two encoders and the short decoder refuse. |
| Base58Laws.ShortForm | apps/web/app/utils/base58.ts:46-52 | The short decoder writes the hex digits of the number, on at least 32 places, in the groups of a UUID; the last group is longer than twelve exactly from 2^128 on. |
| Base58Laws.GoAgrees | internal/shared/base58/base58.go:20-52 | Go and TypeScript encode every byte string alike except two or more bytes that are all zero. |
| Base58Laws.ShortRoundTrip | apps/web/app/utils/base58.ts:9-53 | b58ToUuid inverts uuidToB58 on every UUID. |
| Base58Laws.ShortConverse | apps/web/app/utils/base58.ts:37-53 | b58ToUuid yields a UUID iff the number is below 2^128, and its result encodes back to the same text iff moreover the text is not empty and has no leading 1 (other than "1"). |
| Base58Laws.ShortReadsLong | apps/web/app/utils/base58.ts:37-53 | The short decoder reads the zero-preserving form of every UUID. |
| Base58Laws.LongReadsShort | apps/web/shared/utils/uuid.ts:48-94 | The zero-preserving decoder reads the short form iff the first byte is not zero, which is also exactly when the two forms coincide. |
| Base58Laws.AtMost22 | apps/web/shared/utils/uuid.ts:40-41 | No encoding of 16 bytes is longer than 22 characters. |
| Base58Laws.ShortAtMost22 | apps/web/app/utils/base58.ts:21-31 | Nor is the short form, and 22 are needed. |
| LogWriter.CutIsASplit | internal/zeitwork/build.go:668-676 | Cutting at newlines loses nothing and leaves no newline inside a line. |
| LogWriter.CutIsTheOnlySplit | internal/zeitwork/build.go:668-676 | And it is the only list of lines with that text. |
| LogWriter.RowsAreTheNonBlankLines | internal/zeitwork/build.go:678-687 | Stored rows are the trimmed non-blank lines, one each, in order. |
| LogWriter.KeptExactly | internal/zeitwork/build.go:678 | A line has a row exactly when its trimmed text is not empty. |
| LogWriter.ChunkInvariant | internal/zeitwork/build.go:665-691 | Writing any chunks is writing their bytes at once, from any state, and the buffer never holds a newline between calls. |
| LogWriter.StreamStored | internal/zeitwork/build.go:665-704 | Any chunking followed by a flush stores the rows of all lines of the stream, the unterminated last one included. |
| LogWriter.Writer.Write | internal/zeitwork/build.go:665-690 | The loop stores the complete lines of buffer and chunk and keeps the rest. |
| LogWriter.Writer.Flush | internal/zeitwork/build.go:693-704 | The rest is stored unless blank, and the buffer is emptied. |
| LogWriter.Writer.Deliver | internal/zeitwork/build.go:665-704 | A delivery in any chunks and a flush store exactly the rows of the whole stream. |
| BuildLogSections.FirstPass | apps/web/app/utils/build-log-sections.ts:95-169 | The first pass learns the last section and first command of every step and the sections in order of first header. |
| BuildLogSections.PlaceLine | apps/web/app/utils/build-log-sections.ts:217-294 | One line of the second pass changes exactly the section the line belongs to, or the last one for a line without a section. |
| BuildLogSections.SecondPass | apps/web/app/utils/build-log-sections.ts:215-294 | After the second pass every section holds its steps in order with the texts, durations and done marks of the whole log. |
| BuildLogSections.RenderSections | apps/web/app/utils/build-log-sections.ts:296-337 | The sections with a step, in order, with status and total duration. |
| BuildLogSections.ParseBuildLogSections | apps/web/app/utils/build-log-sections.ts:86-363 | The whole function equals its specification over line positions. |
| BuildLogSections.Input.TargetIsOpen | apps/web/app/utils/build-log-sections.ts:227-242 | Text is only shown at a step that is already open in its section. |
| BuildLogSections.Input.HomeRow | apps/web/app/utils/build-log-sections.ts:265-294 | What a line of a known step does to its section. |
| BuildLogSections.Input.LastRow | apps/web/app/utils/build-log-sections.ts:227-262 | What a line without a section does to the last one. |
| BuildLogLaws.SectionsFollowHeaders | apps/web/app/utils/build-log-sections.ts:105-110 | Of two sections the earlier has a header before the later has its first. |
| BuildLogLaws.StepsFollowLines | apps/web/app/utils/build-log-sections.ts:202-213 | Steps of a section come in the order of their first lines. |
| BuildLogLaws.StepInOneSection | apps/web/app/utils/build-log-sections.ts:244-246 | No step number is in two sections. |
| BuildLogLaws.ShownOnce | apps/web/app/utils/build-log-sections.ts:217-294 | Each line is shown at its one place, which is in the result, or nowhere. |
| BuildLogLaws.DroppedLines | apps/web/app/utils/build-log-sections.ts:217-294 | Exactly which lines are not shown: the builder line, headers, DONE lines of known steps, empty output, and lines without a section before the last section has a step. |
| BuildLogLaws.ViewsAreTheNonempty | apps/web/app/utils/build-log-sections.ts:300-302 | The result has one section per key with a step, in the order of the keys. |
| BuildLogLaws.ShownSection | apps/web/app/utils/build-log-sections.ts:304-336 | Each step shows its command and the texts of its lines in log order, those of numbered steps stripped, its last duration and its status. |
| BuildLogLaws.SectionCompleted | apps/web/app/utils/build-log-sections.ts:307-334 | A section is completed if and only if the build is over or every step with a line in it has a DONE line. |
| BuildLogLaws.SectionDuration | apps/web/app/utils/build-log-sections.ts:317-328 | The duration of a section is the sum of the known durations of its steps, and none if none is known. |
| BuildLogLaws.SectionIsLast | apps/web/app/utils/build-log-sections.ts:112-169 | The last header of a step decides its section. |
| BuildLogLaws.CommandIsFirst | apps/web/app/utils/build-log-sections.ts:112-169 | The first header of a step gives its command. |
| BuildLogLaws.DurationIsLast | apps/web/app/utils/build-log-sections.ts:268-280 | The last DONE line of a step gives its duration. |
| BuildLogLaws.HomeExactly | apps/web/app/utils/build-log-sections.ts:244-262 | Which section a line belongs to, in terms of the headers. |
| BuildLogLaws.LastPlaceIs | apps/web/app/utils/build-log-sections.ts:227-262 | A line without a section is shown at the step opened last so far, in the section whose first header comes last of all. |
| BuildLogLaws.FallbackExactly | apps/web/app/utils/build-log-sections.ts:339-360 | The fallback is returned if and only if no line is a header, holds every line, and has the status of the build. |
| BuildLogLaws.ShownExactly | apps/web/app/utils/build-log-sections.ts:300-302 | A section is in the result if and only if some line is at home in it; it then has a header. |
| BuildLogLaws.ResultNames | apps/web/app/utils/build-log-sections.ts:300-337 | The result names the shown sections, in their order. |
| BuildLogLaws.OrderFailsExactly | apps/web/app/utils/build-log-sections.ts:11-14 | The documented order of sections fails if and only if two sections of the result have their first headers in one order and their first lines in the other. |
| BuildLogLaws.CrossedBecause | apps/web/app/utils/build-log-sections.ts:112-169 | Then the one headed later has a line before its own first header, or the first header of the other is on a line whose step ends up elsewhere. |
| BuildLogLaws.HeadedKeepsOrder | apps/web/app/utils/build-log-sections.ts:11-14 | So the order holds for every log in which each section of the result begins with its first header. |
| BuildLogLaws.SettledIsHeaded | apps/web/app/utils/build-log-sections.ts:112-169 | As it does when at each line the headers so far already put its step where it ends up. |
| BuildLogLaws.OrderGuaranteeFails | apps/web/app/utils/build-log-sections.ts:11-14 | In general the order fails: a concrete log whose result is section A, then section B, while its first line belongs to B. |
| Uniques.UniqueKeepsOrder | internal/shared/dns/resolver.go:111-116 | Appending only what is new keeps the order of first occurrences. |
| DnsResolver.Resolver.Resolve | internal/shared/dns/resolver.go:49-101 | The outcome describes the CNAME chain from the normalised host truthfully, in all seven cases; in a resolution each name is the normalised canonical name of the one before, and the last has no other one. |
| DnsResolver.ResolutionIs | internal/shared/dns/resolver.go:49-99 | A resolution, in terms of the lookups alone: the chain of normalised canonical names without repetition, down to a name without another one, and exactly the addresses of that name. |
| DnsResolver.LoopIs | internal/shared/dns/resolver.go:58-61 | A loop error names the first name the chain of normalised canonical names comes back to. |
| DnsResolver.ErrorIs | internal/shared/dns/resolver.go:49-96 | What the empty-canonical, lookup and no-records errors say of the lookups of the name they report. |
| DnsResolver.TooDeepIs | internal/shared/dns/resolver.go:58-101 | A depth error means that maxDepth different names all have another canonical name. |
| DnsResolver.AddressOrder | internal/shared/dns/resolver.go:82-91 | Addresses of one family keep the order of their first occurrences in the answer. |
| DnsResolver.Resolver.Addresses | internal/shared/dns/resolver.go:82-91 | IPv4 and IPv6 texts, split, in order, without repetition; both empty exactly when no entry has an IP. |
| DnsResolver.OutcomeIsDetermined | internal/shared/dns/resolver.go:49-101 | That description fixes the outcome: no two outcomes describe one host. |
| DnsResolver.LoopReported | internal/shared/dns/resolver.go:59-61 | A loop is reported iff the chain returns to one of its names within maxDepth (section 3.6.2 of RFC 1034). |
| DnsResolver.DepthReported | internal/shared/dns/resolver.go:58-100 | The depth error is reported iff maxDepth different names all lead on. |
| DnsResolver.EndReported | internal/shared/dns/resolver.go:76-97 | An address result or address error comes iff the chain ends in a terminal name within maxDepth. |
| DnsResolver.HostChain | internal/shared/dns/resolver.go:63-74 | The host chain starts at the normalised host, has no repeats, each name is the normalised CNAME of the one before, and the last is its own end. |
| DnsResolver.Names.EndedChainIsDistinct | internal/shared/dns/resolver.go:59-74 | A chain that ends repeats no name. |
| DnsResolver.Names.ReturningLeadsForever | internal/shared/dns/resolver.go:59-74 | A chain that returns never ends. |

## Left out

- Docker, skopeo, umoci, cloud-hypervisor, netlink, VSOCK and HTTP health checks: calls into code that is not part of this model, each an outcome a run may meet.
- PostgreSQL: statements are atomic and a failed one has no effect on the tables; that an SQL error inside the failover transaction makes PostgreSQL refuse the statements after it is not modelled.
- The WAL listener and its wire format: that each committed row change causes one `Schedule` call is not proved; the scheduler results hold for any calls.
- Leader election and the leader flag: no result assumes that there is one leader.
- `isControlPlaneLeader` checks at the head of the reconcilers: a server that does not believe itself leader takes no steps.
- `drainServer` and `drainDeployment`: their query filters on a status the service never writes.
- `reconcileServer`, route synchronisation and heartbeats: the failover model takes the listed dead servers and the recent ones as given.
- The part of `reconcileDeployment` before the health check (build, image, VM creation): deployments gain and change VMs at any time in the hand-over model.
- `prepareBuildContext`, `detectFramework`, `streamBuildLogs`, `executeBuild` beyond its effect on the build row: file handling and foreign calls.
- Base image and work disk preparation of a VM: one outcome of the run.
- Regular expressions of the log parser and `strings.TrimSpace`: parameters; the results hold for any classification of lines and any trimming.
- Floating-point durations and their rounding: integer hundredths of a second.
- `BuildLogCreate` errors: the log writer ignores them, so "stored" means handed to the statement.
- `LookupTXT` and DNS answers that change within one resolution: lookups are functions of the name.
- Edge proxy, certificate storage, cryptography, web API handlers, Vue components, telemetry, initagent, zeitworkctl: I/O, UI or thin wrappers.
- ANSI parsing, pagination and duration formatting: easy additions.
- VmService.Service.KillProcess: a kill of a live process is taken to succeed, as the source ignores the error.
- VmLifecycle.TapsNeverShared: bounded by 2^32 starts, because the counter wraps after that.
- FailoverOutcome.Foretold: it and `OutcomeExactly` speak of listed servers that are not eligible as targets, which the two heartbeat limits of 60 and 30 seconds make true unless a listed server recovers between the query and the transaction.
- The image lookup of `reconcileVM`: its failure ends a run of a live row before any effect, like a failing read of the row.
- Internal domains, which the web app inserts already verified: the domain verification model creates rows unverified, so it speaks of custom domains.
- HandOver.StepInv: two runs of one deployment id at the same time are allowed, so nothing here rests on the scheduler.

# Verified model of the nanovm engine's control plane

nanovm runs microVMs from copy-on-write snapshots behind a small control plane. This
project models, in Dafny, the parts of it that are state machines, protocols, codecs or
arithmetic, and proves what they promise over every input, every run or every
interleaving. `dafny verify dfyconfig.toml` checks all of it.

| module | models |
|---|---|
| `WarmPool` | the warm fork pool: takes, refill tasks and drains interleaving through one lock |
| `VmmWorker`, `Fleet`, `FleetRefinement`, `FleetRouting`, `FleetListing`, `FleetService` | the process fleet, its one-VM workers, the flat inventory they amount to, and its listing |
| `LittleEndian`, `SnapshotHeader`, `CowPaging` | the snapshot header codec and the lazy page-fault resolver over it |
| `Civil`, `Timestamps`, `StampReader` | the civil-date algorithm, the fixed-width RFC 3339 stamps, and reading them back |
| `Billing`, `Signup` | dunning, pending signups, and signup verification as a crash/retry protocol |
| `ForkQuota` | the token bucket |
| `Framing`, `AgentSession`, `AgentOversize` | length-prefixed framing and the guest agent's session over it |
| `EnvEntries`, `ApiTokens` | the environment's token list and the token store with its replayed file |
| `Paging`, `Labels` | cursor pagination of the listings and label escaping in the metrics |

Each stateful component is a class or an event system whose methods are proved equal to
specification functions on values; the theorems are about those functions. Whatever the
environment decides (a launch that fails, an id a worker's counter yields, a write that is
lost, a clock, a crash) is an argument, so a theorem for all arguments covers it.

## Where the code and its promises differ

In each of these the model keeps the code's behaviour, a lemma shows it at a concrete input
or run, and another says exactly when the promise does hold.

- The pool's documentation says a take looks at depth plus in-flight and starts only enough
  refills to reach the target (`crates/control-plane/src/warm_pool.rs:31-34`). A refill
  releases its counter before it pushes its VM, and a drain forgets refills that still run,
  so depth plus in-flight can end above the target either way: `WarmPool.OvershootBreaksTheTarget`,
  `WarmPool.DrainBreaksTheTarget`. It stays within it exactly when no VM is queued while it
  is already there (`WarmPool.DepthHeldExactlyWithoutCrowding`); the VMs owed stay within it
  exactly when no kick starts refills past strays (`WarmPool.OwedHeldExactlyWithoutStrayKicks`).
- A drain is said to destroy every warm VM before its snapshot goes
  (`crates/control-plane/src/warm_pool.rs:22-25`), but a refill running at the drain queues its
  VM afterwards: `WarmPool.RefillOutlivesTheDrain`, `WarmPool.DrainIsFinalExactlyWhenIdle`.
- The fleet's documentation says a snapshot can be found after its VM is destroyed
  (`crates/nanovm-fleet/src/lib.rs:198-202`), but destroying a VM unlists exactly its
  snapshots, and a snapshot is found exactly when listed: `FleetRouting.DestroyedVmLosesItsSnapshots`,
  `FleetRefinement.DestroySimulates`, `Fleet.ListedSnapshotsRoute`.
- The fleet indexes snapshots by the id a worker returns, but each worker numbers its own:
  `FleetRouting.EqualIdsHideASnapshot`, `FleetRouting.RoutingIsExactWithoutCollisions`.
- The fleet does not rewrite the id inside a metadata reply, and the VM listing takes its
  cursor from that id: `FleetListing.FleetListingNeverEnds`,
  `FleetListing.FleetPagesExactlyWhenIdsAgree`.
- The pager refuses every fault of a region that ends at the top of the address space, and
  marks a page resident before its last overflow check: `CowPaging.TopOfTheAddressSpace`,
  `CowPaging.OverflowingGeometry`, `CowPaging.LazyEqualsEagerExactly`. Page data starts at
  byte 64, as the pager has it, not at the 4096 that `crates/snapshot/src/lib.rs:70` declares.
- A revocation whose write to the file is lost is undone by the next restart:
  `ApiTokens.LostRevocation`, `ApiTokens.SyncedExactlyWhenSaved`.
- The retry time saturates at 64 bits, and a burst of 0 still names one:
  `ForkQuota.SaturatedRetryIsDenied`, `ForkQuota.SmallBurstNeverAdmits`,
  `ForkQuota.RetryAfterIsExact`.
- The agent writes frames the host's cap refuses: `AgentOversize.BigReadIsLost`,
  `AgentSession.HostReceivesTheAnswers`.
- A token that itself ends in `@` and a role name loses that suffix:
  `EnvEntries.SecretEndingInARole`, `EnvEntries.BareEntryRoundTrip`.

One more is stated by a contract alone: a frame encode that fails in the serialiser, unlike
one that fails on size, leaves bytes behind (`Framing.FrameWriter.Encode`).

## Model

| member | source | states |
|---|---|---|
| WarmPool.Pool.TakePop | crates/control-plane/src/warm_pool.rs:113-125 | takes the oldest queued VM of the snapshot, or none, and touches nothing else |
| WarmPool.Pool.KickRefill | crates/control-plane/src/warm_pool.rs:156-180 | reserves exactly the tasks that close the gap between depth plus in-flight and the target |
| WarmPool.Pool.ReleaseCounter | crates/control-plane/src/warm_pool.rs:181-187 | gives one reservation back, never below zero (a drain may have forgotten it) |
| WarmPool.Pool.PushHandle | crates/control-plane/src/warm_pool.rs:188-193 | queues the restored VM last, in its own critical section |
| WarmPool.Pool.Drain | crates/control-plane/src/warm_pool.rs:131-144 | returns the whole queue for destruction and forgets the in-flight count |
| WarmPool.StepDrivesTally | crates/control-plane/src/warm_pool.rs:113-206 | every event of the interleaved system, seen from one snapshot, is a step of a counter machine |
| WarmPool.TallyStepKeepsBounds | crates/control-plane/src/warm_pool.rs:113-206 | the inductive invariant relating counter, running refills, gap, queue, drains and peak gap is kept by every counter step |
| WarmPool.StagesPartitionTasks | crates/control-plane/src/warm_pool.rs:156-206 | every refill ever started is running, in the gap, delivered or failed, so the bounds count all of them |
| WarmPool.RunIsBounded | crates/control-plane/src/warm_pool.rs:113-206 | that invariant holds after every interleaving |
| WarmPool.PoolBounds | crates/control-plane/src/warm_pool.rs:131-193 | in every interleaving in-flight is within the target, running refills within target times (1 + drains), VMs owed within that plus the peak gap and within the target plus the peak of strays, and total restores are owed + removed + failed |
| WarmPool.KickClosesTheGap | crates/control-plane/src/warm_pool.rs:156-180 | in every reachable state a kick brings depth plus in-flight to the target, starts one task per slot, and leaves the pool owed at least its target |
| WarmPool.DisabledPoolIsIdle | crates/control-plane/src/warm_pool.rs:100-125 | a pool with target 0 never starts a refill or queues a VM |
| WarmPool.StepKeepsShown | crates/control-plane/src/warm_pool.rs:113-206 | only a push can take depth plus in-flight past the target, and by one |
| WarmPool.DepthHeldExactlyWithoutCrowding | crates/control-plane/src/warm_pool.rs:156-193 | in every interleaving, drains included, depth plus in-flight stays within the target throughout if and only if no VM was queued while it was already at the target |
| WarmPool.OwedHeldExactlyWithoutStrayKicks | crates/control-plane/src/warm_pool.rs:131-193 | in every interleaving, drains included, the VMs owed stay within the target throughout if and only if no kick started refills while some ran or waited that depth and in-flight do not show |
| WarmPool.OwedBoundsShown | crates/control-plane/src/warm_pool.rs:156-193 | depth plus in-flight never exceeds what is owed, so no stray kick means the documented bound holds |
| WarmPool.UndrainedStraysAreInTheGap | crates/control-plane/src/warm_pool.rs:181-193 | until a drain the strays are exactly the refills between release and push |
| WarmPool.OvershootBreaksTheTarget | crates/control-plane/src/warm_pool.rs:181-193 | a concrete run with target 1 and no drain that ends with one VM queued and one in flight |
| WarmPool.DrainBreaksTheTarget | crates/control-plane/src/warm_pool.rs:131-144 | a concrete run with target 1 and no kick in the gap in which a drain leads to depth 2 |
| WarmPool.DrainIsFinalExactlyWhenIdle | crates/control-plane/src/warm_pool.rs:127-144 | after any run, nothing of a drained snapshot is queued again without a new kick if and only if at the drain no refill of it was restoring, restored or waiting to push |
| WarmPool.RefillOutlivesTheDrain | crates/control-plane/src/warm_pool.rs:127-144 | a concrete run in which a refill running at the drain queues its VM afterwards |
| WarmPool.RunIsPlaced | crates/control-plane/src/warm_pool.rs:113-206 | queues, logs and task holdings stay consistent in every interleaving |
| WarmPool.ExactlyOnePlace | crates/control-plane/src/warm_pool.rs:113-206 | each restored VM is in exactly one place: held by its task, queued, handed out or drained; anything else is in none |
| WarmPool.HandOutsFollowPushes | crates/control-plane/src/warm_pool.rs:113-125 | the k-th VM to leave a snapshot's queue is the k-th pushed and was restored from that snapshot, and no VM leaves twice |
| WarmPool.UndrainedRemovalsAreHits | crates/control-plane/src/warm_pool.rs:113-144 | without drains every removal was a hit |
| WarmPool.RestoresFollowHits | crates/control-plane/src/warm_pool.rs:156-193 | without drains the refills ever started number at most target + peak gap + hits + failures |
| VmmWorker.Serve | crates/nanovm-vmm-child/src/lib.rs:28-63 | one response per request in order, each from the backend as earlier requests left it, up to and including the first Shutdown and nothing after |
| VmmWorker.ListingIsExact | crates/nanovm-vmm-child/src/lib.rs:72-149 | over every session a listing names exactly the snapshots captured or adopted in it and not deleted since |
| VmmWorker.DestroyedIsUnknown | crates/nanovm-vmm-child/src/lib.rs:72-149 | over every session a destroyed VM is unknown to every later request about it until its id is handed out again |
| VmmWorker.RestoreReturnsTheCapture | crates/vm-mock/src/lib.rs:153-186 | over every session a restore gives a VM in the state the captured VM had at its capture, whatever became of it since |
| VmmWorker.TheWireKeepsResults | crates/vmm-ipc/src/lib.rs:326-342 | dispatch and unwrap together return the backend's own result up to error kind if and only if it is not Unsupported, which reads as a backend failure |
| Fleet.StepKeepsInv | crates/nanovm-fleet/src/lib.rs:542-786 | every fleet call, however it fails, keeps the accounting, pool, hosting and index invariants and brings no id back into use |
| Fleet.RefillKeepsInv | crates/nanovm-fleet/src/lib.rs:279-294 | a refill that stops anywhere keeps the invariant, leaves workers and index alone, and adds only new ids to the pool |
| Fleet.RefillFillsExactly | crates/nanovm-fleet/src/lib.rs:279-294 | a refill reaches the target if and only if every launch it needs succeeds, and keeps the idle workers it had in front |
| Fleet.CreateRefillsThePool | crates/nanovm-fleet/src/lib.rs:542-561 | a create takes the oldest idle worker, whose id it answers with, keeps the others in order, and leaves the pool at its size if and only if every launch that needs succeeds, whether or not the create does |
| Fleet.PoolStaysFull | crates/nanovm-fleet/src/lib.rs:279-294 | where every launch works the pool is at its configured size after every run of calls |
| Fleet.ClaimKeepsInv | crates/nanovm-fleet/src/lib.rs:542-561 | the worker a create claims is empty and its id was never given to a VM |
| Fleet.EveryWorkerIsAccountedFor | crates/nanovm-fleet/src/lib.rs:177-194 | after any run every started worker is in exactly one of pool, map and killed, nothing else is, ids strictly ascend, and the pool is within its size |
| Fleet.ListedSnapshotsRoute | crates/nanovm-fleet/src/lib.rs:745-778 | after any run a listed snapshot's owner is a live worker that holds it, so such a call fails only if the worker is gone or its host fails; an unlisted one is always unknown |
| FleetRefinement.VmRequestSimulates | crates/nanovm-fleet/src/lib.rs:420-452 | a worker's answer to a rewritten request is the flat map's answer for the VM it hosts, whatever id its backend chose |
| FleetRefinement.CreateSimulates | crates/nanovm-fleet/src/lib.rs:542-588 | a create succeeds exactly when the claimed worker runs and its host does not fail, and then adds one Created VM under a never-used id |
| FleetRefinement.OnVmSimulates | crates/nanovm-fleet/src/lib.rs:590-625 | start, stop, state and snapshot are one step of the flat inventory |
| FleetRefinement.RestoreSimulates | crates/nanovm-fleet/src/lib.rs:627-690 | a restore succeeds exactly when the snapshot is listed, its owner alive and exporting, and a new worker starts, adopts and restores; then it adds one Running VM under a never-used id |
| FleetRefinement.DestroySimulates | crates/nanovm-fleet/src/lib.rs:692-711 | destroy removes the VM and exactly its snapshots, whatever the worker answers |
| FleetRefinement.DeleteSimulates | crates/nanovm-fleet/src/lib.rs:745-763 | delete unlists the snapshot exactly when its owner is alive and does not fail |
| FleetRefinement.StepSimulates | crates/nanovm-fleet/src/lib.rs:542-786 | one fleet call is one step of the flat inventory, with a reply the inventory allows |
| FleetRefinement.FleetIsOneInventory | crates/nanovm-fleet/src/lib.rs:542-711 | over every run of calls and crashes the replies are those of one flat map from id to VM, and what the workers hold at the end is that map |
| FleetRefinement.MetadataCarriesTheWorkersId | crates/nanovm-fleet/src/lib.rs:780-786 | the state in a metadata reply is right, and its id is the VM's exactly when the two id spaces agree on it |
| FleetRouting.RoutingIsExactWithoutCollisions | crates/nanovm-fleet/src/lib.rs:614-625 | the index equals the live captures at every point of a run if and only if no capture returned an id listed for another VM |
| FleetRouting.DistinctIdsRouteHome | crates/nanovm-fleet/src/lib.rs:614-690 | if no two workers issue the same snapshot id, every listed snapshot routes to the VM that captured it |
| FleetRouting.CapturesAreHeld | crates/nanovm-fleet/src/lib.rs:614-625 | after every run, collisions included, each capture neither deleted nor destroyed is still in the worker of the VM that made it |
| FleetRouting.EqualIdsHideASnapshot | crates/vm-core/src/lib.rs:50-56 | two workers' first snapshots have equal ids: the second takes the entry, and the first is still held but unreachable |
| FleetRouting.DestroyedVmLosesItsSnapshots | crates/nanovm-fleet/src/lib.rs:692-711 | a concrete run: a VM is created, snapshotted and destroyed, and its snapshot is unknown |
| FleetListing.FleetPagesExactlyWhenIdsAgree | crates/control-plane/src/routes.rs:563-580 | over the fleet a client following `next` sees every owned VM once, ascending, in the fewest pages, if and only if each VM's worker answers and gave it the fleet's own id |
| FleetListing.FleetListingNeverEnds | crates/nanovm-fleet/src/lib.rs:780-786 | a fleet with VMs 2 and 3, listed one row at a time, gives the row and cursor of VM 1 for ever |
| FleetService.LaunchWorker | crates/nanovm-fleet/src/lib.rs:314-391 | a launch succeeds exactly when some attempt of three executes with only busy-executable failures before it, and the handshake follows |
| FleetService.ProcessFleet.RefillWarmPool | crates/nanovm-fleet/src/lib.rs:279-294 | the loop is the refill specification, and reports success exactly when the pool is full |
| FleetService.ProcessFleet.CreateVm | crates/nanovm-fleet/src/lib.rs:542-588 | the in-place call is the specified create, a failed one killing its worker |
| FleetService.ProcessFleet.DispatchRemapped | crates/nanovm-fleet/src/lib.rs:420-433 | the in-place call changes only the addressed worker's entry and is the specified remapped round trip |
| FleetService.ProcessFleet.SnapshotVm | crates/nanovm-fleet/src/lib.rs:614-625 | the in-place call is the specified capture and index update |
| FleetService.ProcessFleet.RestoreVm | crates/nanovm-fleet/src/lib.rs:627-690 | the in-place call is the specified export, adopt and restore |
| FleetService.ProcessFleet.DestroyVm | crates/nanovm-fleet/src/lib.rs:692-711 | the in-place call is the specified destroy for any worker answers |
| FleetService.ProcessFleet.DeleteSnapshot | crates/nanovm-fleet/src/lib.rs:745-763 | the in-place call is the specified delete |
| FleetService.ProcessFleet.ListVms | crates/nanovm-fleet/src/lib.rs:713-733 | each VM is listed exactly once with its current state, or Created when its worker does not answer, and nothing changes |
| Civil.YearOfEraWindow | crates/control-plane/src/time.rs:50-57 | the corrected quotient is the year whose day window contains the day |
| Civil.CivilSteps | crates/control-plane/src/time.rs:50-62 | every day's date is valid and is the Gregorian successor of the day before, negative days included |
| Civil.CivilIsTheCalendar | crates/control-plane/src/time.rs:50-62 | for every day count whose year fits 32 bits the result is the date reached by stepping that many days from 1970-01-01 |
| Civil.CivilIncreases | crates/control-plane/src/time.rs:50-62 | later days have strictly later dates |
| Timestamps.PaddedOrder | crates/control-plane/src/time.rs:38-43 | zero-padded numbers of one width order as strings as they do as numbers |
| Timestamps.JoinOrder | crates/control-plane/src/time.rs:38-43 | stamps of one shape order as strings as their field lists do |
| Timestamps.DateFits | crates/control-plane/src/time.rs:37-43 | through 9999 the date parts fit their widths |
| Timestamps.StampWidth | crates/control-plane/src/time.rs:38-43 | a stamp has 24 characters |
| Timestamps.StampOrder | crates/control-plane/src/time.rs:38-43 | for all instants through 9999 string order of stamps is millisecond order, and stamps are equal only for equal instants |
| StampReader.StampReadsBack | crates/control-plane/src/time.rs:22-44 | every instant through 9999 is shown by a stamp of the documented shape whose columns read back to a valid date and clock and exactly the instant's milliseconds |
| StampReader.DaysOfWalk | crates/control-plane/src/time.rs:50-62 | counting days by year and month lengths undoes stepping through the calendar |
| StampReader.OffsetIsTheSum | crates/control-plane/src/time.rs:26-37 | for every 64-bit offset the instant shown is now plus the offset, cut at the epoch and at the largest second |
| Billing.InMemoryBillingStore.RecordPendingSignup | crates/control-plane/src/billing.rs:679-686 | replaces any row of the same address and files this one |
| Billing.InMemoryBillingStore.TakePendingSignup | crates/control-plane/src/billing.rs:688-697 | removes the row whether or not it expired, and returns it exactly when a peek would |
| Billing.InMemoryBillingStore.PeekPendingSignup | crates/control-plane/src/billing.rs:699-705 | returns a live row and changes nothing |
| Billing.InMemoryBillingStore.DeletePendingSignup | crates/control-plane/src/billing.rs:707-710 | removes that row only |
| Billing.InMemoryBillingStore.GcExpiredSignups | crates/control-plane/src/billing.rs:712-717 | keeps exactly the live rows and returns how many went |
| Billing.RowsLiveUntilTheirDeadline | crates/control-plane/src/billing.rs:688-717 | peek, take and gc agree, and a row is live exactly until its numeric deadline |
| Billing.BoundaryIsNumeric | crates/control-plane/src/billing.rs:291-294 | the saturated, epoch-clamped boundary is now minus the grace period in milliseconds, or the epoch |
| Billing.DunningBlocksPastGrace | crates/control-plane/src/billing.rs:242-309 | a caller is blocked exactly when it has a subscription that is past_due, unpaid or canceled and changed more than the grace period ago, for every 64-bit grace, and the verdict carries that status, time and grace |
| Signup.MakeSlug | crates/control-plane/src/billing.rs:1321-1338 | the two loops build the specified slug |
| Signup.SlugIsItsWords | crates/control-plane/src/billing.rs:1321-1338 | for every name the slug is its letter-and-digit runs in lower case joined by dashes |
| Signup.SlugsAreFixedPoints | crates/control-plane/src/billing.rs:1321-1338 | a slug has only letters, digits and single inner dashes, and exactly the slugs are their own slug |
| Signup.Provider.CreateCustomer | crates/control-plane/src/billing.rs:785-807 | the assumed provider: a repeated idempotency key returns the first customer |
| Signup.SignupVerify | crates/control-plane/src/billing.rs:1199-1237 | one undisturbed call with any upstream and store failures: each error exactly when its cause holds and with the store unchanged, success maps the org to the key's customer and consumes the row unless the delete fails |
| Signup.StepKeepsInv | crates/control-plane/src/billing.rs:1199-1237 | every step, crash and failure keeps the invariant tying rows, attempts, provider and recorded customers |
| Signup.OneCustomerPerToken | crates/control-plane/src/billing.rs:1199-1237 | in every interleaving one token creates at most one customer, and every answered attempt on it got that one |
| Signup.RowsLeaveOnlyWhenSettled | crates/control-plane/src/billing.rs:679-717 | a row leaves only after its org's customer is recorded, by expiry, or by a request from the same address |
| Signup.RetrySettles | crates/control-plane/src/billing.rs:1199-1237 | after any history an undisturbed attempt on a live row maps the org to this token's customer, the earlier one if there was one, and consumes the row |
| Signup.OrgsMapToTheirLastWriter | crates/control-plane/src/billing.rs:1218-1218 | in every interleaving an org maps to the customer of the token that last recorded it |
| Signup.InterleavedAttemptSettles | crates/control-plane/src/billing.rs:1199-1237 | whatever runs in between, a recorded attempt used its token's one customer, and its org still maps to it if and only if no other token has recorded the org since |
| Signup.LaterSignupTakesTheOrg | crates/control-plane/src/billing.rs:1210-1218 | of two attempts whose names share a slug the later to record takes the org |
| Signup.SecondSignupTakesTheOrg | crates/control-plane/src/billing.rs:1199-1237 | a concrete run from the start: addresses asking for "A" and "a!" both get a customer and the org maps to the second |
| LittleEndian.ValueOfBytes | crates/snapshot/src/lib.rs:342-347 | reading back the little-endian bytes of a number gives the number |
| LittleEndian.BytesOfValue | crates/snapshot/src/lib.rs:294-309 | writing the value of some bytes gives the bytes |
| LittleEndian.ByteWeight | crates/snapshot/src/lib.rs:294-309 | byte i of a word has weight 256 to the power i |
| SnapshotHeader.WriteTo | crates/snapshot/src/lib.rs:334-354 | writes a validated header followed by zeros and leaves the rest; on any refusal the buffer is untouched |
| SnapshotHeader.ReadBack | crates/snapshot/src/lib.rs:281-368 | parsing a serialised header, whatever follows, gives that header exactly when it validates and otherwise the very error validation reports |
| SnapshotHeader.ParsedHeaderIsSound | crates/snapshot/src/lib.rs:281-327 | a header that parses has non-wrapping, consistent geometry and re-serialises to the bytes read |
| SnapshotHeader.ValidExactly | crates/snapshot/src/lib.rs:259-275 | which headers are valid, numerically, and which error every other one gets |
| SnapshotHeader.ParseIsExact | crates/snapshot/src/lib.rs:281-327 | every buffer is too short, foreign, or parses as the one header whose serialised form it starts with validates; bytes from 36 on do not matter |
| SnapshotHeader.NewMakesValidHeaders | crates/snapshot/src/lib.rs:238-257 | the constructor makes exactly the valid headers without flags |
| CowPaging.OpenPager | crates/snapshot/src/runtime.rs:118-138 | opening fails exactly on a misaligned base and otherwise nothing is resident |
| CowPaging.OpensExactlyWhenAligned | crates/snapshot/src/runtime.rs:118-138 | which bases are accepted, numerically, and the pager each gives |
| CowPaging.CowPager.HandleFault | crates/snapshot/src/runtime.rs:149-200 | the in-place fault handler is the specified resolution, bit update and error cases included |
| CowPaging.FaultAnswers | crates/snapshot/src/runtime.rs:149-200 | for every address the error it gets outside the region, and inside it the page it lies on by index and by the guest address that page starts at, with its bit set and no other |
| CowPaging.CowPager.ResidentPages | crates/snapshot/src/runtime.rs:203-205 | the count of resident bits |
| CowPaging.LazyEqualsEager | crates/snapshot/src/runtime.rs:149-200 | for any header that parses and any reads and writes, the lazily paged guest reads what the eagerly loaded image overlaid with its writes would give, and its pages agree with it, while neither the end address nor an offset leaves 64 bits |
| CowPaging.LazyEqualsEagerExactly | crates/snapshot/src/runtime.rs:149-200 | for every header that parses and every base the pager accepts, that holds over every run if and only if base plus memory size and every backing offset fit 64 bits |
| CowPaging.OverflowLosesThePage | crates/snapshot/src/runtime.rs:186-193 | when an offset overflows some run differs from the eager one |
| CowPaging.OverflowLosesTheRegion | crates/snapshot/src/runtime.rs:154-157 | when the end address overflows some run differs from the eager one |
| CowPaging.TopOfTheAddressSpace | crates/snapshot/src/runtime.rs:154-157 | a valid one-page header opens at the last page of the address space and its fault is refused |
| CowPaging.OverflowingGeometry | crates/snapshot/src/runtime.rs:186-193 | a valid header of 2^59 - 1 pages has an overflowing offset |
| CowPaging.EachPageCopiedOnce | crates/snapshot/src/runtime.rs:149-205 | each page is populated at most once, from disjoint ranges inside the page data, and resident pages count the copies |
| CowPaging.LiveGuest.Perform | crates/snapshot/src/runtime.rs:149-200 | one access through the pager object, with the copy its fault asks for, is the specified lazy step |
| CowPaging.RunForks | crates/snapshot/src/runtime.rs:109-138 | two pager objects opened over one image, their guests' accesses interleaved at will: each guest ends, and has read, as if it had run alone |
| ForkQuota.Take | crates/control-plane/src/fork_quota.rs:159-182 | the imperative update is the specified bucket step |
| ForkQuota.Quota.TryAcquire | crates/control-plane/src/fork_quota.rs:107-116 | disabled or anonymous callers pass untouched; otherwise only this bearer's bucket steps |
| ForkQuota.Quota.TryAcquireOrg | crates/control-plane/src/fork_quota.rs:130-153 | overrides apply only when positive, and only this org's bucket steps |
| ForkQuota.TokensStayWithinCapacity | crates/control-plane/src/fork_quota.rs:159-182 | after any call the tokens lie between 0 and that call's capacity |
| ForkQuota.NewKeyGetsItsBurst | crates/control-plane/src/fork_quota.rs:159-182 | a new key's simultaneous calls are admitted up to the whole burst and no further |
| ForkQuota.IdleTimeIsCredited | crates/control-plane/src/fork_quota.rs:159-182 | from any bucket, calls that come together after any idle time are admitted exactly up to the whole tokens in the smaller of the burst and tokens plus idle time times rate |
| ForkQuota.RestRestoresTheBurst | crates/control-plane/src/fork_quota.rs:159-182 | a key left alone for burst / rate seconds has its whole burst again |
| ForkQuota.RestOfTheWindow | crates/control-plane/src/fork_quota.rs:159-182 | from inside a window only the tokens held and the time left can be spent |
| ForkQuota.WindowBound | crates/control-plane/src/fork_quota.rs:130-182 | admits in any window are at most the largest capacity plus the largest rate times its length, with rate and capacity changing call by call |
| ForkQuota.DenialsAccumulate | crates/control-plane/src/fork_quota.rs:159-182 | denied calls lose nothing |
| ForkQuota.RetryAfterIsExact | crates/control-plane/src/fork_quota.rs:159-182 | a call that many seconds later is admitted exactly when its burst is at least 1 and the wait did not saturate, and one second sooner is still denied |
| ForkQuota.DeniedCallersRetry | crates/control-plane/src/fork_quota.rs:159-182 | the same from the denied call itself, whatever bucket it met |
| ForkQuota.SaturatedRetryIsDenied | crates/control-plane/src/fork_quota.rs:176-180 | at one token in 2^65 seconds the named retry is denied |
| ForkQuota.SmallBurstNeverAdmits | crates/control-plane/src/fork_quota.rs:171-181 | a burst below 1 admits no call, whatever the bucket held |
| Framing.FrameWriter.Encode | crates/proto/src/frame.rs:95-113 | appends one frame; an oversize payload leaves the buffer unchanged, a failing serialiser leaves the reserved header and what it wrote, and these are the only errors |
| Framing.DecodeFrame | crates/proto/src/frame.rs:130-151 | what a frame at the front decodes to, error cases included |
| Framing.DecodePrefix | crates/proto/src/frame.rs:130-151 | a decision other than Incomplete does not depend on later bytes |
| Framing.StrictPrefixIsIncomplete | crates/proto/src/frame.rs:130-151 | every strict prefix of a frame yields Incomplete with the bytes it has and needs |
| Framing.Receive | crates/proto/src/frame.rs:130-151 | the decode-or-wait loop is the specified feed |
| Framing.ChunkingDoesNotMatter | crates/proto/src/frame.rs:130-151 | any way of cutting a stream is received as the whole stream, broken streams included |
| Framing.StreamDecodes | crates/proto/src/frame.rs:95-151 | draining an encoded list gives that list and leaves nothing |
| Framing.ChunkedStreamDecodes | crates/proto/src/frame.rs:95-151 | any chunking of an encoded list is received as exactly that list |
| AgentSession.HandlersFollowTheProtocol | crates/guest-agent/src/main.rs:352-565 | every response carries its request's id; one-shot operations give one, ExecStart one error or Started, at most two outputs and one terminal |
| AgentSession.HandlersReportTheOutcome | crates/guest-agent/src/main.rs:352-565 | the frames of an ExecStart carry the child's own bytes on each stream, its pid and its exit; every other answer is the operation's result, the last exit, or the error its cause calls for |
| AgentSession.WaitReportsTheLastExit | crates/guest-agent/src/main.rs:536-565 | after any history a wait reports the latest exit of its pid or that there is none |
| AgentSession.Agent.HandleExecStart | crates/guest-agent/src/main.rs:405-532 | the frames of one child in order, and its exit recorded |
| AgentSession.Agent.ProcessRequest | crates/guest-agent/src/main.rs:331-344 | writes the handler's responses as lines and updates the exit table |
| AgentSession.SplitLines | crates/guest-agent/src/main.rs:313-327 | the non-empty parts between newlines |
| AgentSession.SplittingLosesNothing | crates/guest-agent/src/main.rs:313-327 | splitting what was written gives back exactly the printed responses |
| AgentSession.Reframe | crates/guest-agent/src/main.rs:313-327 | the split and reframe step emits one frame per response, stopping at the first that cannot be written |
| AgentSession.WriteFrame | crates/guest-agent/src/main.rs:769-781 | one response as one frame, refused exactly from 2^32 bytes on |
| AgentSession.AnswerFrame | crates/guest-agent/src/main.rs:281-329 | one frame's responses framed, id 0 for a malformed one |
| AgentSession.RunSession | crates/guest-agent/src/main.rs:281-329 | the session's whole output is the frames of the answers in request order |
| AgentSession.FramedRequestsAreAnsweredInOrder | crates/guest-agent/src/main.rs:281-329 | framed requests are all read and answered in order |
| AgentSession.SessionEndsAtABrokenFrame | crates/guest-agent/src/main.rs:746-767 | at a frame cut short or announced beyond the cap the session ends, with everything before it answered and nothing after |
| AgentSession.HostReceivesTheAnswers | crates/guest-agent/src/main.rs:746-781 | the host decodes exactly the answers if and only if every one fits its frame cap |
| AgentSession.SessionAnswersEachRequest | crates/guest-agent/src/main.rs:281-565 | from the session's output over any framed requests the host decodes one group of responses per request, in order, each following the protocol under its request's id or id 0 for a malformed frame and reporting the outcome, if and only if every response fits the cap |
| AgentSession.OversizeAnswerIsRefused | crates/guest-agent/src/main.rs:769-781 | an answer beyond the cap but within 32 bits is sent and refused as an invalid length |
| AgentOversize.BigReadIsLost | crates/guest-agent/src/main.rs:769-781 | for every request rendering with the properties assumed of JSON, the frame of one read request is answered with 16 MiB that the host refuses, under a concrete response rendering with those properties |
| AgentOversize.ReadIsShort | crates/guest-agent/src/main.rs:746-767 | such a request rendering exists, and the request is within the frame cap in it |
| EnvEntries.EntryRoundTrip | crates/control-plane/src/auth.rs:691-717 | printing `org:token@role` and parsing gives the three parts back, colons and at-signs in the token and every spelling of the role included |
| EnvEntries.BareEntryRoundTrip | crates/control-plane/src/auth.rs:709-717 | `org:token` parses to itself with the legacy role if and only if the token does not end in an at-sign and a role |
| EnvEntries.SecretEndingInARole | crates/control-plane/src/auth.rs:679-685 | the secret `hunter2@admin` is read as `hunter2` with the admin role |
| EnvEntries.RoleNameParses | crates/control-plane/src/auth.rs:176-194 | each role's own name parses to it |
| EnvEntries.RoleSpellings | crates/control-plane/src/auth.rs:176-183 | which spellings name which role, in any letter case and with spaces around |
| EnvEntries.BareTokenParses | crates/control-plane/src/auth.rs:691-717 | a token on its own belongs to the default org, as admin or in the role written after it |
| EnvEntries.EmptyOrgIsDefault | crates/control-plane/src/auth.rs:744-751 | an empty org is the default org |
| EnvEntries.PaddingIsIgnored | crates/control-plane/src/auth.rs:691-702 | white space around an entry changes nothing |
| EnvEntries.InnerPaddingIsIgnored | crates/control-plane/src/auth.rs:691-751 | nor does white space around the colon or before the role |
| EnvEntries.EmptyPartsAreDropped | crates/control-plane/src/auth.rs:497-523 | blank parts and parts with an empty token load nothing |
| EnvEntries.FromCsv | crates/control-plane/src/auth.rs:497-523 | the loop is the left-to-right load of the comma-separated parts |
| EnvEntries.ListRoundTrip | crates/control-plane/src/auth.rs:497-523 | a comma-joined list of printed entries loads to the last-wins map of the entries, the empty list included |
| EnvEntries.LastWinsMeans | crates/control-plane/src/auth.rs:508-517 | in that map each token has the account of its last entry and no other token occurs |
| ApiTokens.TokenStore.LoadPersisted | crates/control-plane/src/auth.rs:394-443 | the loop is the specified replay, blank rows skipped |
| ApiTokens.TokenStore.RuntimeRows | crates/control-plane/src/auth.rs:454-468 | each runtime token exactly once and no environment token |
| ApiTokens.TokenStore.Persist | crates/control-plane/src/auth.rs:450-488 | the file lists the store, or is as it was when the write fails |
| ApiTokens.TokenStore.IssueToken | crates/control-plane/src/auth.rs:580-608 | the in-place call is the specified step |
| ApiTokens.TokenStore.RevokeToken | crates/control-plane/src/auth.rs:614-634 | true exactly for a runtime token of that org, and the specified step |
| ApiTokens.TokenStore.Resolve | crates/control-plane/src/auth.rs:567-574 | the account of an accepted token, none otherwise |
| ApiTokens.TokenStore.ListRuntime | crates/control-plane/src/auth.rs:640-659 | exactly the org's runtime tokens, ids distinct |
| ApiTokens.RevokeRemovesExactlyOne | crates/control-plane/src/auth.rs:614-634 | revocation removes exactly the one runtime token with that id and org, or nothing, and never an environment token |
| ApiTokens.RevokeOnAnyStore | crates/control-plane/src/auth.rs:614-634 | on any store at all revocation touches no token but the one it may revoke, no other id, and leaves its own id pointing nowhere only by removing it |
| ApiTokens.RunKeepsWorldOk | crates/control-plane/src/auth.rs:394-634 | in every run of issues, revokes and restarts the id index and the runtime tokens are mutual inverses and the environment's tokens are as configured |
| ApiTokens.ReplayMeans | crates/control-plane/src/auth.rs:394-443 | replaying a proper file over the environment yields a consistent store with exactly its rows |
| ApiTokens.BlankRowsAreSkipped | crates/control-plane/src/auth.rs:394-443 | rows without a token or an id are skipped |
| ApiTokens.ReplayRestoresExactly | crates/control-plane/src/auth.rs:394-488 | replay restores the store exactly if and only if the file lists it, in whatever order |
| ApiTokens.SyncedExactlyWhenSaved | crates/control-plane/src/auth.rs:450-488 | from a restorable state one call leaves one if and only if its write landed or it is a restart or a revoke that finds nothing to remove |
| ApiTokens.WriteSyncs | crates/control-plane/src/auth.rs:450-488 | one landed write makes the next restart exact, whatever was lost before |
| ApiTokens.RestartAfterRunIsExact | crates/control-plane/src/auth.rs:379-443 | if since the start, or since some landed write, every call with something to write got it to the disk, a restart changes nothing |
| ApiTokens.UnsavedRevocationComesBack | crates/control-plane/src/auth.rs:480-487 | a revoked token whose write was lost is accepted again after a restart |
| ApiTokens.LostRevocation | crates/control-plane/src/auth.rs:480-487 | a concrete run: issue, revoke with the write lost, restart, and the token is accepted |
| Paging.ValidatedLimit | crates/control-plane/src/api.rs:365-378 | accepted exactly when absent, giving 100, or within 1..1000, giving itself |
| Paging.List | crates/control-plane/src/routes.rs:536-582 | a bad limit is refused, and otherwise the page is the specified one |
| Paging.ChunkCount | crates/control-plane/src/routes.rs:561-580 | n rows make max(1, n / limit rounded up) pages |
| Paging.FollowingNextVisitsAll | crates/control-plane/src/routes.rs:965-1008 | following `next` visits every owned id above 0 exactly once, ascending, in that many pages, for any number of requests |
| Paging.ExactlyWhenRowsAreFaithful | crates/control-plane/src/api.rs:310-320 | the client sees exactly those pages if and only if every row carries the id it was listed under and no metadata call fails |
| Paging.ForeignIdsStopTheCursor | crates/control-plane/src/routes.rs:563-580 | if VM 2 of 2 and 3 is described as VM 1 the cursor repeats, however often the client asks |
| Labels.EscapeIsPerCharacter | crates/control-plane/src/metrics.rs:41-52 | the four chained replacements and the shortcut are one per-character escape |
| Labels.EscapeRoundTrip | crates/control-plane/src/metrics.rs:41-52 | escaping can be undone |
| Labels.EscapeIsInjective | crates/control-plane/src/metrics.rs:41-52 | distinct labels render distinctly |
| Labels.EscapedIsWellQuoted | crates/control-plane/src/metrics.rs:41-52 | no raw newline or carriage return and no unescaped quote remains |
| Labels.UnchangedExactlyWhenPlain | crates/control-plane/src/metrics.rs:41-52 | a value is rendered as it is exactly when it has nothing to escape |

## Left out

- KVM, devices, virtio and the guest itself: a worker's backend is the lifecycle machine of `crates/vm-mock/src/lib.rs:112-219`, whose ids and failures are arguments.
- Guest exec and file calls through the fleet: they are forwarded like the modelled calls, and their effects inside the guest are not part of this model.
- Concurrent callers inside one fleet call and the sharing of a worker slot between them: each fleet call is one atomic step on values.
- The oversize-frame and timeout paths of the worker stream: a worker that stops answering is a crash.
- Wrap-around of the fleet's 64-bit id counter: ids are unbounded.
- JSON: parsing undoes serialising, and serialised text is non-empty without a newline byte.
- Floating-point rounding in the quota: rates and tokens are reals.
- ForkQuota.RetryAfterIsExact: stated for the arrival times the retry value names, over real time rather than the clock's nanoseconds.
- Mutex poisoning: no thread panics while it holds a lock.
- The payment provider, email, hashing and random generation: the provider honours idempotency keys, and generated tokens and ids are new and non-blank.
- The API key minted at the end of signup verification: it is an ApiTokens issue.
- Webhooks, plan resolution, the SQLite billing store, S3 and filesystem stores.
- A persistence file edited by hand or a malformed one: only files the store itself wrote are proved to replay exactly.
- HTTP extraction, error envelopes, the default-org fall-through of ownership, and inventories that change between pages.
- Years after 9999, where the stamp is no longer of fixed width.
- The line-delimited agent session, vsock transport and the one-shot handlers' file-system effects.
- The metrics counters and the other label-set formatting.

# Global-cache adaptor: verified model

A Dafny model of the concurrent and stateful core of the Ceph "global cache" adaptor: the server
adaptor that feeds client requests to the cache, the patched Ceph client that retries them, the proxy
that talks back to RADOS, and the codecs in between. `dafny verify dfyconfig.toml` checks everything.

| file | what it models |
|---|---|
| `Throttle.dfy` | admission counters taken and given back by compare-and-swap loops, as a small-step machine over any number of threads |
| `Dispatch.dfy` | hashed request queues, their workers, the copyup barrier and the capacity check |
| `WriteLimiter.dfy` | the write-quota limiter, its clock and its 32-bit arithmetic |
| `Objecter.dfy` | the client's retry protocol: sessions, retry queues, hang-on list, node views and resets |
| `NodeId.dfy` | node numbers packed by addition and taken apart by masks |
| `Prefetch.dfy` | a prefetch range cut at 4 MiB objects |
| `Sgl.dfy` | scatter/gather lists on the heap: gather, zero-fill, scatter, and when they fit together |
| `IoWorker.dfy` | the per-pool I/O worker: queue, dispatch, wait for empty, stop |
| `ClassLoader.dfy` | the recursive class loader and its status machine |
| `TlsSend.dfy` | the TLS send path against any behaviour of `SSL_write` |
| `Omap.dfy` | omap payloads: cutting, decoding, encoding |
| `RbdName.dfy` | RBD object names and the packed ids made from them |
| `Rollback.dfy` | snapshot rollback through two temporary snapshots |

A concurrent component is a `State`, an `Action` for each atomic step, `Enabled` and `Apply`; a run is
a `Trace` of enabled actions and a main result is about the state after any trace. Code that works on
fields or buffers is a class or a method proved against a specification; loops are the source's loops.

Some properties one would expect turn out to be false of the code. They are stated with the exact
condition under which they hold, and with a run or an input that breaks them:

* Workers that wait at a gate count themselves, so the server can stop for good. With nothing outstanding a
  waiter sleeps on exactly when the workers' own shares are over the gate's limit. With fixed throttles and r
  rejected names such a stop is reachable exactly when T + r is below the number of queues, or r is above it, or
  an op limit is below it, or there is a bandwidth limit at all. The start-up checks exclude none of this.
* A lane holds at most its capacity plus the number of producer threads plus the spurious wakeups so far, and that
  bound is reached.
* The copyup barrier protects a request exactly as long as no request carries two copyup operations. A lane never
  hands over again exactly when all its copyups have run and none was decoded since the last hand-over, which
  carried one; with at most one copyup per request, exactly when one could not be decoded.
* A run of the client loses an unfinished operation exactly when a connection is reset whose node is up in the
  OSD map while its session still holds one.
* `send` on a TLS socket can report fewer bytes than were taken, exactly when the layer fails without an
  errno after taking some; the bytes are then sent twice. A run of sends keeps its bytes for every list of chunks
  exactly when no send of it, up to a failure with an errno, meets such a failure.
* Scatter and gather leave a block after different numbers of entries; a list round-trips exactly when
  the entries that only scatter visits hold nothing. A short read is followed by zeros exactly when, besides,
  the zero-fill reaches all that is read, which it does when every block declares an entry and, in page mode,
  declared entries hold a page; a shorter entry in page mode or a block that declares none breaks it.
* An omap reply with an empty key or value cannot be decoded at all.
* Two images share a packed head exactly when both have 16 or more hexadecimal digits or differ in case only.
* The node-view decoding recovers a node exactly when its cluster is 0.
* A failing rollback leaves exactly the temporary snapshots that `Leftover` names, for every set of answers.
* A write quota is kept in every run when the cycle in microseconds fits 32 bits, and every longer cycle has a run
  that breaks it. In any run it breaks exactly at a call that finds a filled cycle not over, which a call leaves
  behind, without oversleeping, exactly when the microseconds it has to sleep do not fit 32 bits.
* A prefetch is sent to the right objects exactly while their numbers fit 32 bits.
* When a worker thread has left, a request it accepted is undispatched exactly when it left with work queued or the
  request came after it.

## Model

| member | source | states |
|---|---|---|
| `Throttle.MicroExact` | src/server_adaptor/network_module.cpp:869-1115 | one step of a Get or Put moves its counter by exactly the change of the thread's own share, whatever other threads did in between |
| `Throttle.MicroLwt` | src/server_adaptor/network_module.cpp:809-839 | the same for `lwtCount`, wrap-around and the put of a rejected request included |
| `Throttle.LostGetRetries` | src/server_adaptor/network_module.cpp:809-827 | a compare-and-swap of a Get that finds another value leaves the counter alone, reads it again and then takes it |
| `Throttle.LostPutRetries` | src/server_adaptor/network_module.cpp:829-839 | the same for a Put, which looks at its guard again first |
| `Throttle.GetTakes` | src/server_adaptor/network_module.cpp:809-827 | undisturbed, a worker anywhere in a Get before its compare-and-swap takes the counter within three steps of its own and passes or sleeps by the value it found |
| `Throttle.PutGives` | src/server_adaptor/network_module.cpp:829-839 | undisturbed, a completion anywhere in a Put whose counter covers it gives the amount back within four steps |
| `Throttle.ReleasedInReverse` | src/server_adaptor/network_module.cpp:1117-1150 | a request takes lwt, the op counter and the KB of its kind in this order and gives them back in the opposite one |
| `Throttle.MovesUnlessStuck` | src/server_adaptor/network_module.cpp:809-1115 | a step of a worker inside a Get or a Put changes nothing if and only if it sleeps at a shut gate |
| `Throttle.OffIsUntouched` | src/server_adaptor/network_module.cpp:809-839 | with the first throttle at zero `lwtCount` is never touched |
| `Throttle.LwtLawHolds` | src/server_adaptor/network_module.cpp:601-609 | in every reachable state `lwtCount` is the number of requests past their Get and not past their Put, less one per rejected name, modulo 2^64 |
| `Throttle.ExactLawHolds` | src/server_adaptor/network_module.cpp:869-1115 | in every reachable state the four op and bandwidth counters equal the count or KB of the requests that hold them, even if the throttle value changes mid-run |
| `Throttle.NoPutIsLost` | src/server_adaptor/network_module.cpp:1117-1150 | whenever a guarded Put is due its counter covers what it gives back, so none is dropped or wraps; the unguarded Put of `lwtCount` finds zero exactly when as many names were rejected as requests hold it |
| `Throttle.QuiescentCounters` | src/server_adaptor/network_module.cpp:1117-1150 | when all work has drained the counters are zero, except one below zero in `lwtCount` per rejected name |
| `Throttle.AdmissionBound` | src/server_adaptor/network_module.cpp:809-839 | with throttle T at most T + 1 requests, plus one per rejected name, are past the first gate and unfinished, for any number of workers |
| `Throttle.AdmissionBoundIsTight` | src/server_adaptor/network_module.cpp:809-839 | that bound is reached in every configuration, for any number of rejected names |
| `Throttle.StuckIsForever` | src/server_adaptor/network_module.cpp:809-1115 | from a state with every worker asleep at a shut gate and nothing outstanding no step changes anything while the throttles stay |
| `Throttle.JamIsForever` | src/server_adaptor/network_module.cpp:809-839 | the same for the first gate, whatever the other throttles do |
| `Throttle.DrainedCount` | src/server_adaptor/network_module.cpp:485-519 | with nothing outstanding `lwtCount` is what the workers themselves hold less the rejected names, modulo 2^64 |
| `Throttle.DrainedExact` | src/server_adaptor/network_module.cpp:869-1115 | with nothing outstanding the other counters are what the workers themselves hold |
| `Throttle.GateReopensIff` | src/server_adaptor/network_module.cpp:809-1115 | with nothing outstanding a waiter at any of the three gates sleeps on if and only if the own shares of the workers are over its limit, rejected names included |
| `Throttle.StuckIff` | src/server_adaptor/network_module.cpp:485-519 | with fixed throttles and r rejected names a stuck state is reachable if and only if T + r is less than the number of workers, or r is more, or an op limit is less, or there is a bandwidth limit |
| `Throttle.JamIff` | src/server_adaptor/network_module.cpp:601-609 | with r rejected names a jam at the first gate is reachable if and only if T + r is less than the number of workers or r is more |
| `Throttle.AcceptedConfigurationsJam` | src/server_adaptor/osa.cpp:190-232 | configurations the start-up checks accept that jam: 2000 and 5000 with no rejected name, 5000 and 4 with five |
| `Dispatch.ClientOpQueue.EnQueue` | src/server_adaptor/client_op_queue.h:24-40 | pushes request, life and period timestamp together: the zipped contents grow by one |
| `Dispatch.ClientOpQueue.SwapOut` | src/server_adaptor/network_module.cpp:461-466 | the three swaps take the zipped contents and leave the queue empty |
| `Dispatch.DrainBatch` | src/server_adaptor/network_module.cpp:485-519 | draining hands over exactly the accepted requests, in order, each with its own two timestamps |
| `Dispatch.AlwaysOrdered` | src/server_adaptor/network_module.cpp:460-519 | in every reachable state the parallel queues are in lock-step, per lane the log of enqueued requests is what was processed, then what waits, and no sleeping worker has work |
| `Dispatch.HandedInOrder` | src/server_adaptor/network_module.cpp:662-705 | requests for one object name are handed over in enqueue order, less the rejected ones, with the timestamps taken for them |
| `Dispatch.EnqueuedIsPushed` | src/server_adaptor/network_module.cpp:662-705 | the log of enqueued requests is what the actions alone say was pushed: an arrival with its own life and period, or a thread that comes back with the request and life it came with and the period of that step |
| `Dispatch.HandedAsPushed` | src/server_adaptor/client_op_queue.h:24-40 | requests for one object name are handed over in the order of those pushes, less the rejected ones, with those timestamps |
| `Dispatch.HandedArrived` | src/server_adaptor/network_module.cpp:670-705 | whatever is handed over has arrived, with that life, and was accepted |
| `Dispatch.AlwaysWaitsForRoom` | src/server_adaptor/network_module.cpp:699-702 | in every reachable state a thread that waits, waits for a lane that is over its capacity |
| `Dispatch.LaneGoesOn` | src/server_adaptor/network_module.cpp:460-519 | on any lane but a dead one a worker that does not sleep on an empty queue can take a step, or it is at the barrier and a copyup that can clear it is left |
| `Dispatch.CapacityBound` | src/server_adaptor/network_module.cpp:699-705 | in every run a lane never holds more than its capacity plus the number of producer threads plus the spurious wakeups of threads that waited for it |
| `Dispatch.CapacityReached` | src/server_adaptor/network_module.cpp:699-705 | that bound is reached for every number of spurious wakeups, none included |
| `Dispatch.SpuriousBreaksCapacity` | src/server_adaptor/network_module.cpp:699-705 | with spurious wakeups one producer can fill a lane with any number of requests |
| `Dispatch.AlwaysFenced` | src/server_adaptor/network_module.cpp:508-516 | with at most one copyup per request, in every reachable state the flag of a lane is up from hand-over of a copyup until it has run, and nothing was handed over behind it |
| `Dispatch.TwoCopyupsAreOvertaken` | src/server_adaptor/osa.cpp:403-413 | a request with two copyups is overtaken in some run |
| `Dispatch.BarrierIff` | src/server_adaptor/network_module.cpp:508-516 | no later request overtakes an unfinished copyup in any reachable state if and only if no request may carry two |
| `Dispatch.DeadForever` | src/server_adaptor/osa.cpp:382-392 | a lane whose flag is up with no copyup left to clear it never hands over again |
| `Dispatch.DeadIff` | src/server_adaptor/osa.cpp:382-413 | in every run a lane is dead if and only if as many copyups were executed on it as were handed over and none was decoded since the last hand-over, which carried one |
| `Dispatch.OneCopyupDeadIff` | src/server_adaptor/osa.cpp:382-392 | in every run with at most one copyup per request, if and only if one of its copyups could not be decoded |
| `WriteLimiter.QuotaFactorTwo` | src/server_adaptor/network_module.cpp:744-748 | without overflow the quota is within a factor of two, up to rounding, of ratio times cycle over 1000 |
| `WriteLimiter.QuotaIs` | src/server_adaptor/network_module.cpp:744-748 | below a second the quota is the largest that the whole number of cycles in a second keep within the ratio; from a second on it is the ratio for every whole second |
| `WriteLimiter.KilobytesOfOne` | src/server_adaptor/network_module.cpp:761-765 | a write or a full write is charged its length over 1024, anything else nothing |
| `WriteLimiter.KilobytesConcat` | src/server_adaptor/network_module.cpp:761-765 | the operations of a request are charged one by one |
| `WriteLimiter.QuotaOverflows` | src/server_adaptor/network_module.cpp:744-748 | a ratio and a cycle whose 32-bit product wraps to less than a third of the quota |
| `WriteLimiter.SleepReachesIff` | src/server_adaptor/network_module.cpp:768-778 | the sleep after a full cycle reaches its end if and only if its 32-bit product of microseconds does not wrap |
| `WriteLimiter.SleepEndsOnTime` | src/server_adaptor/network_module.cpp:768-778 | a sleep that fits ends in the first millisecond after the cycle |
| `WriteLimiter.OverlongCycle` | src/server_adaptor/osa.cpp:226-229 | with an accepted cycle of 4294968 ms a filled quota returns after 704 microseconds |
| `WriteLimiter.BreakingRun` | src/server_adaptor/network_module.cpp:767-779 | every accepted cycle of 4294968 ms and more has a run of two requests after which a cycle has taken more than its law allows |
| `WriteLimiter.WithinKept` | src/server_adaptor/network_module.cpp:761-765 | a charge keeps every cycle to the law if and only if it goes to a cycle with room or to a fresh one |
| `WriteLimiter.ChargeBound` | src/server_adaptor/network_module.cpp:731-780 | a cycle that keeps to the law takes at most its quota plus its last request |
| `WriteLimiter.Limiter.OpenCycle` | src/server_adaptor/network_module.cpp:741-760 | asks until a ratio is not zero, sleeping a cycle after each refusal, then opens a cycle with the quota of that ratio and nothing charged |
| `WriteLimiter.Limiter.ChargeOps` | src/server_adaptor/network_module.cpp:761-765 | charges the KB of the writes and full writes of a request, nothing else; of a single operation its length over 1024 if it is either |
| `WriteLimiter.Limiter.WaitForCycle` | src/server_adaptor/network_module.cpp:767-779 | when it returns; room or an elapsed cycle is left if the cycle is below 4294968 ms; for any cycle, without oversleeping, if and only if there was room, the cycle was over or the microseconds to sleep fit 32 bits |
| `WriteLimiter.Limiter.LimitWrite` | src/server_adaptor/network_module.cpp:731-780 | a cycle is opened if and only if the clock shows the last one over; the new quota and charge, which is the KB of the request; every cycle so far kept to the law if and only if it did before and the call found the cycle over, uncharged or with room; without oversleeping the call leaves room or an elapsed cycle if and only if there is room or the microseconds to sleep fit 32 bits |
| `WriteLimiter.Limiter.Serve` | src/server_adaptor/network_module.cpp:731-780 | after any run of requests each has been charged its KB, in order, to some cycle; every cycle kept to the law if and only if every call found its cycle over, uncharged or with room, and always if the cycle is below 4294968 ms |
| `Objecter.StepInv` | patch/ceph-global-cache.patch:4027-4158 | every step, resets of nodes that are up included, keeps each operation in at most one place, in one unless finished or lost, and each tid in one session |
| `Objecter.StepPlace` | patch/ceph-global-cache.patch:3667-3720 | every step takes every unfinished operation to the one place that `Goes` names: a submission to its node or the hang-on list, a reply to a retry queue, a batch or the end, a sweep those with a normal PT and no other, a close or a reset all of the session |
| `Objecter.Begins` | patch/ceph-global-cache.patch:3667-3681 | a new operation begins in a batch of its own with its own PT |
| `Objecter.CanMove` | patch/ceph-global-cache.patch:4027-4158 | wherever an unfinished operation waits, what it waits for can happen: any reply, its retry queue drained, a sweep that wants it, or the next submission of its batch |
| `Objecter.SubmitKey` | patch/ceph-global-cache.patch:3690-3720 | a submission enters the session under the tid the operation had, or a new one larger than all before |
| `Objecter.RepliesClear` | patch/ceph-global-cache.patch:4205-4213 | a reply that retries an operation takes its tid away |
| `Objecter.AlwaysInv` | patch/ceph-global-cache.patch:4199-4227 | that and the order of the retry queues hold after every run |
| `Objecter.ExactlyOnePlace` | patch/ceph-global-cache.patch:4027-4158 | after every run each operation neither finished nor lost is in exactly one session, retry queue, hang-on list or batch, and any other is nowhere |
| `Objecter.SessionTidsUnique` | patch/ceph-global-cache.patch:3667-3681 | after every run no tid is in two sessions |
| `Objecter.StepOrder` | patch/ceph-global-cache.patch:4199-4227 | every step keeps the operations of one PT retry queue, and of the batch drained from it, in the order they were queued |
| `Objecter.ErrorIsNewest` | patch/ceph-global-cache.patch:4199-4227 | the stamp of an error reply is newer than that of every other operation |
| `Objecter.SubmitsOldest` | patch/ceph-global-cache.patch:4099-4114 | a batch is submitted oldest first: in error order from a retry queue, by tid after a close or reset, else from the front |
| `Objecter.SweepSelects` | patch/ceph-global-cache.patch:4133-4145 | after a sweep an operation hangs on if and only if it did and its PT is not normal, and is in the new batch if and only if it did and its PT is |
| `Objecter.SelectInOrder` | patch/ceph-global-cache.patch:4133-4145 | both parts keep the order of the list |
| `Objecter.SweepHangon` | patch/ceph-global-cache.patch:4100-4158 | the erase-in-place loop leaves what the step leaves in the hang-on list and queues what it puts in the new batch: the PTs outside and inside the normal ones, both in order |
| `Objecter.NothingLostIff` | patch/ceph-global-cache.patch:4248-4293 | after every run every unfinished operation is somewhere if and only if no reset of a node that is up met an operation in its session |
| `Objecter.LosingRun` | patch/ceph-global-cache.patch:4248-4293 | a run of three steps that loses its operation |
| `NodeId.PackRecovers` | patch/ceph-global-cache.patch:652-668 | in range no addition carries: node, cluster and port come back and the number is recognised |
| `NodeId.PlainOsd` | patch/ceph-global-cache.patch:4039 | a number is a cache node's if and only if it is 2^20 or more; a node view never closes the session of a plain OSD |
| `NodeId.NodeRecoveredIff` | patch/ceph-global-cache.patch:713-721 | the node comes back if and only if it has at most twelve bits |
| `NodeId.PackInjective` | patch/ceph-global-cache.patch:652-668 | different nodes, clusters or ports give different numbers |
| `NodeId.ViewDecodeIff` | patch/ceph-global-cache.patch:4039 | the node-view decoding gives the node if and only if the cluster is 0 |
| `NodeId.ViewChangeCloses` | patch/ceph-global-cache.patch:4027-4060 | a node view closes a session if and only if its cluster is not 0 or its node is not available |
| `Prefetch.DasReqPrefetch` | patch/ceph-global-cache.patch:771-806 | the pieces are non-empty, each inside one object, in consecutive objects, sent to the low 32 bits of their numbers, and run end to end over the requested range |
| `Prefetch.EachByteOnce` | patch/ceph-global-cache.patch:771-806 | a byte lies in a piece if and only if it was requested, and in no two |
| `Prefetch.PieceCount` | patch/ceph-global-cache.patch:771-806 | there are as many pieces as objects the range touches |
| `Prefetch.AddressedIff` | patch/ceph-global-cache.patch:784-790 | every piece goes to the object its bytes lie in if and only if no object number reaches 2^32 |
| `Sgl.GatherEntries` | src/ceph_proxy/RadosWrapper.cc:622-636 | the gathered bytes are what the first `len` cells of the walk hold; only those need be in bounds; it ends even with empty entries |
| `Sgl.WriteSgl` | src/ceph_proxy/RadosWrapper.cc:600-647 | alignment bytes, the first `len` bytes modulo 2^32, alignment bytes |
| `Sgl.CopyInto` | src/ceph_proxy/RadosWrapper.cc:1211 | a copy into one entry changes the cells of its stretch of memory and no other, wherever one looks |
| `Sgl.Scatter` | src/ceph_proxy/RadosWrapper.cc:1194-1219 | any list of cells shows the data, byte by byte in walk order, where the walk wrote and what it showed before elsewhere; only the cells written need be in bounds |
| `Sgl.ZeroFill` | src/ceph_proxy/RadosWrapper.cc:1181-1192 | exactly the cells of declared entries become zero, seen through any list of cells |
| `Sgl.LayoutIff` | src/ceph_proxy/sgl.h:36-47 | for every chain gather and scatter meet the same first `len` bytes of the same entries if and only if, while bytes remain, a block's entries beyond `entrySumInSgl` hold nothing |
| `Sgl.WalkOnce` | src/ceph_proxy/RadosWrapper.cc:600-647 | no walk meets a byte of an entry twice |
| `Sgl.SpotsMembers` | src/ceph_proxy/RadosWrapper.cc:600-647 | a walk meets exactly the bytes of the entries it looks at: all 64 of a block when scattering, the declared ones (one at least) when gathering, 4096 bytes of each in page mode |
| `Sgl.SpotsAscend` | src/ceph_proxy/RadosWrapper.cc:600-647 | block after block, entry after entry, byte after byte |
| `Sgl.RoundTripIff` | src/ceph_proxy/RadosWrapper.cc:600-647 | if the bytes the two walks touch lie in different cells, a scatter followed by a gather returns every data of a length if and only if the layout condition holds |
| `Sgl.FullBlocks` | src/ceph_proxy/RadosWrapper.cc:1213-1216 | chains whose non-final blocks are full satisfy the layout condition for every length that fits |
| `Sgl.StoreThenLoad` | src/ceph_proxy/RadosWrapper.cc:1194-1219 | what a gather reads after a scatter, for every chain, and that it is the data under the layout condition |
| `Sgl.LoadThenStore` | src/ceph_proxy/RadosWrapper.cc:600-647 | under the layout condition gathering and scattering back changes no memory |
| `Sgl.ReadCallback` | src/ceph_proxy/RadosWrapper.cc:1172-1228 | failure changes nothing; success blanks on an unexpected length and then scatters, seen through any list of cells |
| `Sgl.ShortReadIff` | src/ceph_proxy/RadosWrapper.cc:1180-1220 | in either mode a gather after a read of unexpected length gives the result and then zeros, for every result and every prior memory, if and only if the layout condition holds and the zero-fill reaches all that is read beyond the result |
| `Sgl.ShortRead` | src/ceph_proxy/RadosWrapper.cc:1181-1192 | the direction that one needs for a given result and memory |
| `Sgl.DeclaredIsGathered` | src/ceph_proxy/RadosWrapper.cc:1184-1191 | in plain mode, when every block declares an entry, the zero-fill walk and the gather are the same |
| `Sgl.AllCovered` | src/ceph_proxy/RadosWrapper.cc:1181-1192 | the zero-fill reaches all that is read when every block declares an entry and, in page mode, every declared entry holds a page |
| `Sgl.PageNotCovered` | src/ceph_proxy/RadosWrapper.cc:1186 | one entry shorter than a page in page mode: the rest of the page is not zeroed |
| `Sgl.UndeclaredNotCovered` | src/ceph_proxy/RadosWrapper.cc:1185 | a block that declares no entry: a gather reads an entry that is not zeroed |
| `Sgl.ShortReadCallback` | src/ceph_proxy/RadosWrapper.cc:1180-1220 | after a short read in either mode a gather gives the result followed by zeros, under those two conditions |
| `IoWorker.StepInv` | src/ceph_proxy/RadosWorker.cc:53-127 | every critical section and dispatch keeps the queue bound, the conservation law and both wakeup laws |
| `IoWorker.AlwaysInv` | src/ceph_proxy/RadosWorker.cc:53-127 | in every reachable state at most 65536 requests are queued, accepted equals dispatched, then batch, then queue, and nobody sleeps unsignalled with work or a stop pending |
| `IoWorker.EmptyMeansDispatched` | src/ceph_proxy/RadosWorker.h:246-253 | `WaitForEmpty` returns only when everything accepted has been dispatched, in order, once |
| `IoWorker.ReturnsIff` | src/ceph_proxy/RadosWorker.h:246-253 | a client in `WaitForEmpty` returns if and only if nothing is queued and no batch is being dispatched; the flag it waits under is up exactly while it does |
| `IoWorker.EmptyStaysEmpty` | src/ceph_proxy/RadosWorker.h:234-253 | no step but a queueing one ends that state |
| `IoWorker.StopAfterEmptyDropsNothing` | src/ceph_proxy/RadosWorker.h:276-285 | a stop after the wait, with nothing queued in between, drops no request |
| `IoWorker.StopMayDrop` | src/ceph_proxy/RadosWorker.h:234-240 | a stop without the wait can leave an accepted request in the queue of a dead thread |
| `IoWorker.DroppedIff` | src/ceph_proxy/RadosWorker.cc:78-127 | when the thread has left, some accepted request is undispatched if and only if the loop test saw the stop with work queued or a request was accepted after the thread had left |
| `IoWorker.ExitedForever` | src/ceph_proxy/RadosWorker.cc:119-126 | once the thread has left nothing is dispatched and nothing leaves the queue |
| `IoWorker.GoesOn` | src/ceph_proxy/RadosWorker.cc:78-127 | in a state that keeps the laws a thread with work or a stop to see can take a step until it has left, and a client with nothing to wait for can wake |
| `IoWorker.LeavingSignals` | src/ceph_proxy/RadosWorker.cc:123-126 | a thread that leaves does so for a stop, takes it back and wakes every client that waits |
| `IoWorker.DispatchBatch` | src/ceph_proxy/RadosWorker.cc:91-108 | the loop over a swapped-out batch gives every request one outcome, in order, none skipped: no context, the error of a refused operation, or submitted |
| `IoWorker.RadosIOWorker.Queue` | src/ceph_proxy/RadosWorker.cc:53-76 | the code under the lock does what the machine's step does, and refuses exactly above the limit |
| `ClassLoader.OpenAllTheWay` | src/server_adaptor/ClassHandler.cc:145-211 | below an open class every class on every path of dependencies that libraries declare is open |
| `ClassLoader.OneChange` | src/server_adaptor/ClassHandler.cc:145-211 | a change to one class that keeps its own verdict changes no other class's |
| `ClassLoader.LoadableIff` | src/server_adaptor/ClassHandler.cc:145-211 | from any state, for declared dependencies without a cycle, a class can be loaded if and only if no path of what loading asks for (nothing of an open class, what is missing of a half-loaded one, else all it declares) reaches a library that does not open |
| `ClassLoader.FirstLoadIff` | src/server_adaptor/ClassHandler.cc:152-187 | from the empty map, if and only if no path of declared dependencies reaches a library that does not open |
| `ClassLoader.ClassHandler.GetClass` | src/server_adaptor/ClassHandler.cc:124-143 | finds or adds a class, refusing an unknown name that is not allowed |
| `ClassLoader.ClassHandler.RegisterClass` | src/server_adaptor/ClassHandler.cc:214-226 | succeeds exactly while the class is being initialised |
| `ClassLoader.ClassHandler.RecordDependencies` | src/server_adaptor/ClassHandler.cc:173-186 | records every declared dependency, missing unless open, and changes no verdict |
| `ClassLoader.ClassHandler.ResolveDependencies` | src/server_adaptor/ClassHandler.cc:189-202 | loads what is missing in any order; on failure the class was not loadable |
| `ClassLoader.ClassHandler.LoadClass` | src/server_adaptor/ClassHandler.cc:145-211 | if the declared dependencies have no cycle: terminates; returns zero if and only if the class was loadable from any status, and then it and all that libraries declare below it is open; else the open error of a library at the end of a path of what is still asked for; open classes stay open; only classes below change |
| `ClassLoader.ClassHandler.AddEmbeddedClass` | src/server_adaptor/ClassHandler.cc:41-47 | a new class becomes one being initialised |
| `ClassLoader.ClassHandler.OpenClass` | src/server_adaptor/ClassHandler.cc:49-62 | refuses a name that is not allowed; else, if the declared dependencies have no cycle, zero if and only if the class was loadable, a retry included, and then all that libraries declare below it is open; otherwise the open error of a library it still asks for |
| `TlsSend.SendMsgBounds` | patch/ceph-global-cache-tls.patch:170-222 | a batch never reports more than was taken nor takes more than it has |
| `TlsSend.MsgLaw` | patch/ceph-global-cache-tls.patch:186-218 | on a safe script a batch result that is not negative is the number of bytes taken |
| `TlsSend.MsgLoss` | patch/ceph-global-cache-tls.patch:207-211 | on any other script a batch that is long enough reports zero with bytes taken |
| `TlsSend.FaithfulIff` | patch/ceph-global-cache-tls.patch:224-276 | for every list of buffers a result that is not negative counts the bytes taken if and only if no failure without errno follows taken bytes |
| `TlsSend.ByteSentTwice` | patch/ceph-global-cache-tls.patch:207-211 | one byte taken, then a failure without errno: zero is reported |
| `TlsSend.SendErrno` | patch/ceph-global-cache-tls.patch:207-211 | a send uses up the front of its script; a negative result is minus the errno of the failure it ended with |
| `TlsSend.OneWritePerBatch` | patch/ceph-global-cache-tls.patch:232-262 | a layer that takes whatever it is given is asked once for every 1024 buffers and takes everything |
| `TlsSend.RunLawIff` | patch/ceph-global-cache-tls.patch:224-276 | for every list of chunks sent one after the other, bytes taken plus residue equal all bytes submitted unless a send is negative, if and only if no send of the script, up to a failure with errno, meets a failure without errno after taken bytes |
| `TlsSend.DuplicateOnTheWire` | patch/ceph-global-cache-tls.patch:207-211 | two sends of the bytes 7 and 8 after which the wire carries 7, 7, 8 |
| `TlsSend.TlsSocket.DoSendmsg` | patch/ceph-global-cache-tls.patch:170-222 | the layer takes a prefix of the batch, as the script says |
| `TlsSend.TlsSocket.SendList` | patch/ceph-global-cache-tls.patch:232-262 | the layer takes a prefix of the whole list, over all batches |
| `TlsSend.TlsSocket.Send` | patch/ceph-global-cache-tls.patch:224-276 | a result r that is not negative cuts the first r bytes off the list, and on a safe script exactly those were taken; a script safe for runs stays so |
| `TlsSend.TlsSocket.Stream` | patch/ceph-global-cache-tls.patch:224-276 | on a script safe for runs, through handshakes and over any run of sends up to a negative result, bytes taken plus residue equal all bytes submitted |
| `TlsSend.TlsSocket.StreamOpen` | patch/ceph-global-cache-tls.patch:224-276 | on any script the sends of a socket past its handshake take and leave what the run of `RunLawIff` does |
| `Omap.StrsRoundTrip` | src/server_adaptor/msg_module.cpp:21-37 | reading as many strings as were written gives them back and stops at what follows |
| `Omap.StrOnTheWire` | src/server_adaptor/msg_module.cpp:21-37 | a string is its length in four bytes, the lowest first, and then its bytes |
| `Omap.ItemsAt` | src/server_adaptor/msg_module.cpp:187-200 | keys and values go in turn |
| `Omap.DecodeStrStrMapToBl` | src/server_adaptor/msg_module.cpp:21-37 | on any buffer: fails if and only if the buffer ends early, else copies exactly the bytes up to where the reader stops |
| `Omap.CutsExactly` | src/server_adaptor/msg_module.cpp:21-37 | on any map followed by anything the reader stops at what follows |
| `Omap.CutMap` | src/server_adaptor/msg_module.cpp:187-191 | exactly the encoding of the map is copied |
| `Omap.CollectMeaning` | src/server_adaptor/msg_module.cpp:192-200 | decoding any list of pairs gives the keys in order, each once, with the value written last |
| `Omap.LessIff` | src/server_adaptor/msg_module.cpp:192-200 | the order of the keys is that of their bytes: at the first that differs the smaller comes first, a prefix before what it begins |
| `Omap.CollectOrdered` | src/server_adaptor/msg_module.cpp:192-200 | the items of an ordered map come out unchanged |
| `Omap.DecodeIntoMap` | src/server_adaptor/msg_module.cpp:191-192 | decoding the copy gives that map |
| `Omap.ConvertOmapSetVals` | src/server_adaptor/msg_module.cpp:187-200 | keys and values emitted are the items of the map, the keys in ascending order of their bytes |
| `Omap.EncodeOmapGetvals` | src/server_adaptor/network_module.cpp:1187-1208 | the count, the non-empty keys and values, a zero byte |
| `Omap.GetvalsIff` | src/server_adaptor/network_module.cpp:1187-1208 | a reply decodes to its pairs if and only if no key and no value is empty; else it does not decode |
| `RbdName.Split` | src/server_adaptor/network_module.cpp:589-599 | the loop collects the maximal stretches without a dot |
| `RbdName.TokensJoin` | src/server_adaptor/network_module.cpp:589-599 | splitting what was joined with dots gives the parts back |
| `RbdName.TokensConcat` | src/server_adaptor/network_module.cpp:589-599 | for any strings, splitting `a.b` gives the tokens of `a` and then those of `b`: dots in a row, in front or behind make no token |
| `RbdName.ConvertName` | src/server_adaptor/network_module.cpp:600-636 | not RBD, rejected, bad pool or packed id, as the specification says |
| `RbdName.Outcomes` | src/server_adaptor/network_module.cpp:600-636 | for any name made of tokens: not RBD, rejected or bad pool exactly when its first token is another, it has fewer than three, or the pool needs more than 32 bits |
| `RbdName.PartsOutcome` | src/server_adaptor/network_module.cpp:600-636 | and which tokens the pool, the head, the sequence and the format come from else |
| `RbdName.StrtoullReads` | src/server_adaptor/network_module.cpp:622-629 | spaces, a sign and `0x` are skipped, digits of the base are read up to the first other character, the number saturates at 64 bits and a minus negates it modulo 2^64 |
| `RbdName.HeadSaturatesIff` | src/server_adaptor/network_module.cpp:612-622 | the head saturates if and only if the image has 16 or more digits, and is exact below |
| `RbdName.ParsePrint` | src/server_adaptor/network_module.cpp:589-636 | parsing a printed name of either form gives its packed id |
| `RbdName.PackInjective` | src/dependency/include/sa_def.h:57-64 | different valid names have different packed ids |
| `RbdName.ParseInjective` | src/server_adaptor/network_module.cpp:589-636 | different valid names parse to different ids |
| `RbdName.SameHeadIff` | src/server_adaptor/network_module.cpp:620-621 | two hexadecimal images share a head if and only if both have 16 or more digits or they have as many digits of the same values |
| `RbdName.ZerosVanish` | src/server_adaptor/network_module.cpp:612-615 | without the `1` in front a leading zero changes nothing |
| `Rollback.SnapshotRollbackRequest.SendGcSnapCreate` | patch/ceph-global-cache.patch:2907-2939 | a lost plugin completes at once; else a name is drawn for the right slot |
| `Rollback.SnapshotRollbackRequest.HandleGcSnapCreate` | patch/ceph-global-cache.patch:2941-2958 | keeps the invariant of the machine and comes closer to the end |
| `Rollback.SnapshotRollbackRequest.SendGcSnapRemove` | patch/ceph-global-cache.patch:2959-2998 | removes the next snapshot held or completes with the saved error |
| `Rollback.SnapshotRollbackRequest.HandleGcSnapRemove` | patch/ceph-global-cache.patch:2999-3010 | keeps the invariant of the machine and comes closer to the end |
| `Rollback.SnapshotRollbackRequest.HandleGcRollback` | patch/ceph-global-cache.patch:3022-3068 | both snapshots exist when the manager is asked; keeps the invariant |
| `Rollback.SnapshotRollbackRequest.Run` | patch/ceph-global-cache.patch:2907-3068 | every run ends; the temporary snapshots that exist are exactly those `Leftover` names; one that fails completes once with its first error and leaves none if and only if it is `Tidy`; one that succeeds passes on two existing ones |
| `Rollback.LeavesNothingIff` | patch/ceph-global-cache.patch:2959-3010 | a failing run leaves nothing if and only if what the creates left was seen, every removal it reached took its snapshot away, and the plugin was not lost in between |
| `Rollback.FirstErrorIs` | patch/ceph-global-cache.patch:2907-3068 | the error of a run is the first negative one of its answers in the order they come |
| `Rollback.WhatStays` | patch/ceph-global-cache.patch:2959-3010 | after a failure past the first create, which of the two snapshots stays, in terms of the answers |
| `Rollback.OrderlyIsTidy` | patch/ceph-global-cache.patch:2959-3010 | a plugin that stays, removals that succeed and no unseen left-over are enough |

## Left out

- The plain-mutex throttle variants: the request path uses the compare-and-swap forms only.
- Throttle: the op and bandwidth counters are assumed not to reach 2^64 (`AlwaysFits`).
- Dispatch.ClientOpQueue.EnQueue: the notification of the worker is a step of the machine, not of the class.
- Dispatch.ClientOpQueue.SwapOut: the notification of the producers is a step of the machine, not of the class.
- Dispatch: worker start and stop, core binding and statistics; the string hash is any function.
- WriteLimiter.Limiter.WaitForCycle: cycles of 4294968 ms and more may return early, as its own equivalence says.
- WriteLimiter: the 64-bit wrap of the KB total of a cycle; a clock that runs backwards.
- Objecter: the homeless session, operations on pools that are not accelerated, cancellation and shutdown, which drops what is queued; base Objecter code outside the patch is a parameter of the step (node chosen, PT state).
- Objecter.SweepHangon: the loop erases by an iterator it does not reassign; modelled as erasing in place.
- Sgl: the plain-buffer branch of the read callback, xattr, omap and checksum results; an address is an array and an index, so entries overlap only inside one array.
- IoWorker: the map from pool to worker and the pool contexts, which are plain lookups.
- ClassLoader: libraries whose declared dependencies form a cycle, on which the loader may recurse without end; method and filter registration, `open_all_classes` and dlclose; a class's init function is taken to register the class under its own name.
- TlsSend: handshake content, reading, a failed allocation of the copy buffer and batches of 2 GiB and more.
- Omap: getters that only encode keys, compare operations and the by-keys reply; the decoder of a reply is the client's and is written from the wire format.
- RbdName: embedded NUL characters; a bad pool is reported even for a request without operations.
- Rollback: object-map refresh and the states before and after the temporary snapshots; a name drawn at random is taken to be new.
- The proxy's monitor and usage collection, configuration reading, logging, performance records and the C interface wrappers: external commands, I/O and plumbing.

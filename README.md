# adaptive-cpu-pinning, modelled in Dafny

This project models the core of the `com.reene4444.cpupinning` library, which binds
threads to CPU cores. The core is one native "pin" primitive with layers of
bookkeeping above it:

- `affinity.dfy` (module `Affinity`) models `CpuAffinity`. A set of core ids becomes
  a 64-bit mask, and `pinThread` passes that mask to `sched_setaffinity` on Linux,
  by value where the C function expects a pointer (see "## Left out").
  `getThreadAffinity` decodes the mask the kernel reports. The mask is a sequence of
  64 bits. The kernel's answer and the platform are parameters.
- `topology.dfy` (module `Topology`) models `NumaTopology`, which builds the two
  tables node -> cores and core -> node. There are three paths: the Linux two-node
  split, the single-node fallback when the split records nothing, and the
  single-node path used on other operating systems or when the probe throws. The
  detection loops are methods that fill the tables in place. The value they build
  is the function `DetectedLayout`, and the partition lemmas are proved about it.
- `workload.dfy` (module `Workload`) holds the `WorkloadType` enumeration.
- `adaptive.dfy` (module `Adaptive`) models `AdaptiveAffinityEngine` and its
  `ThreadMetrics` records. It covers:
  - the default workload -> cores table;
  - `selectOptimalCpus`;
  - the two pinning entry points, which track a thread only when its pin succeeds;
  - the bounded sample histories;
  - the `shouldMigrate` threshold rule;
  - the periodic `reviewAndMigrate` pass. The pass is a loop over mutable records,
    proved against the value-level `Reviewed`/`MovedAmong` functions.
- `business.dfy` (module `Business`) models `BusinessIsolationManager` and
  `CpuPool`: named pools whose core sets stay pairwise disjoint, thread membership,
  and `migrateThread`.
- `virtual.dfy` (module `Virtual`) models `VirtualThreadPinner`: core validation,
  the executor registry with increasing ids, and `shutdown`. It also models the
  `PinnedVirtualThreadExecutor` wrapper, whose per-thread `pinned` flag makes each
  thread call `pinThread` at most once per wrapper. The task history of a wrapper is a
  sequence of tasks. Each task names its entry point and the thread that runs it.
  `Pinners` and `PinnedAfter` give the pin calls and the flags that history produces.
- `common.dfy` (module `Common`) holds `Option`, `Result`, thread ids and core
  ranges.

The outside world becomes parameters:
- the platform (`Linux`, `Mac`, other);
- the integer the kernel's affinity call returns;
- the number of available processors (`cpuCount`);
- the outcome of the operating-system probe (`Detection`);
- the set of threads still alive at a review.

Where the source throws `IllegalArgumentException`, the model returns a `Result`
error or a refusal value (`Registration.AlreadyAllocated`, `CreateError`).

## Model

| member | source | states |
|---|---|---|
| Common.CollectRange | src/main/java/com/reene4444/cpupinning/adaptive/AdaptiveAffinityEngine.java:32-36 | The counting loop that fills the available-core set collects exactly the cores 0 .. cpuCount - 1 |
| Affinity.CreateCpuMask | src/main/java/com/reene4444/cpupinning/core/CpuAffinity.java:93-101 | The loop's mask is the encoding of the set: bit i is set exactly when core i is in the set, for 0 <= i < 64 |
| Affinity.CpuMaskBits | src/main/java/com/reene4444/cpupinning/core/CpuAffinity.java:93-101 | Bit c of the encoded mask is set iff c is one of the cores, for every c in [0, 64) |
| Affinity.ParseCpuMask | src/main/java/com/reene4444/cpupinning/core/CpuAffinity.java:103-106 | Every decoded core lies in [0, 64) |
| Affinity.ParseOfMask | src/main/java/com/reene4444/cpupinning/core/CpuAffinity.java:93-106 | Round trip: decoding an encoded set gives exactly its cores in [0, 64); out-of-range cores are lost |
| Affinity.MaskOfParse | src/main/java/com/reene4444/cpupinning/core/CpuAffinity.java:93-106 | The reverse round trip: every mask is the encoding of its decoded set |
| Affinity.PinThread | src/main/java/com/reene4444/cpupinning/core/CpuAffinity.java:32-63 | Success implies the kernel was called, and the binding is always handed the mask of the requested set (as a 64-bit value) |
| Affinity.PinEmptyRefused | src/main/java/com/reene4444/cpupinning/core/CpuAffinity.java:33-36 | An empty set answers false without any kernel call |
| Affinity.PinSucceedsIff | src/main/java/com/reene4444/cpupinning/core/CpuAffinity.java:42-58 | Pin succeeds iff the set is non-empty, the platform is Linux and the kernel answers 0; the kernel is reached iff the set is non-empty on Linux |
| Affinity.PinOutOfRangePassesZeroMask | src/main/java/com/reene4444/cpupinning/core/CpuAffinity.java:39-43 | A non-empty set with no core in [0, 64) is not refused: the kernel receives the zero mask |
| Affinity.GetThreadAffinity | src/main/java/com/reene4444/cpupinning/core/CpuAffinity.java:69-84 | A non-empty answer only on Linux with kernel result 0, and every reported core is in [0, 64) |
| Affinity.PinThenGet | src/main/java/com/reene4444/cpupinning/core/CpuAffinity.java:32-84 | A property of the encoding, assuming the kernel stores the mask it is handed: decoding the mask a successful pin passed yields the representable part of the pinned set, which is the set itself when all its cores are below 64 |
| Topology.SingleNodeCpuMap | src/main/java/com/reene4444/cpupinning/core/NumaTopology.java:38-45 | The single-node core table maps exactly the cores 0 .. cpuCount - 1, each to node 0 |
| Topology.LinuxCpuMap | src/main/java/com/reene4444/cpupinning/core/NumaTopology.java:63-72 | The split's core table maps exactly the cores below the bound; cores below the half go to node 0 and the rest to node 1 |
| Topology.LinuxNodes | src/main/java/com/reene4444/cpupinning/core/NumaTopology.java:63-72 | An empty half records no node; otherwise node 0 is recorded |
| Topology.NumaTopology.constructor | src/main/java/com/reene4444/cpupinning/core/NumaTopology.java:18-20 | The new topology's tables are the detected layout for its core count and probe outcome |
| Topology.DetectedLayout | src/main/java/com/reene4444/cpupinning/core/NumaTopology.java:32-82 | The layout detection builds: nodes {0, 1} on the Linux split and {0} otherwise; the core table covers exactly the cores below 2 * (cpuCount / 2) on the split and below cpuCount otherwise |
| Topology.NumaTopology.DetectTopology | src/main/java/com/reene4444/cpupinning/core/NumaTopology.java:32-55 | Starting from empty tables, detection yields the two-node split on Linux and one node elsewhere or when the probe fails |
| Topology.NumaTopology.AssumeSingleNode | src/main/java/com/reene4444/cpupinning/core/NumaTopology.java:38-45 | Node 0 is set to the list 0 .. cpuCount - 1, every one of those cores maps to node 0, and other entries stay |
| Topology.NumaTopology.DetectLinuxNumaTopology | src/main/java/com/reene4444/cpupinning/core/NumaTopology.java:57-82 | The two rounds and the fallback build the detected Linux layout: halves [0, h) and [h, 2h), or a single node when h = 0 |
| Topology.NumaTopology.CollectNode | src/main/java/com/reene4444/cpupinning/core/NumaTopology.java:64-68 | One round collects the node's cores in ascending order and maps each to the node, leaving the node table untouched |
| Topology.NumaTopology.GetNumaNode | src/main/java/com/reene4444/cpupinning/core/NumaTopology.java:87-89 | On a valid topology, the node is 1 exactly for cores in [h, 2h) of the split and 0 otherwise, including unmapped cores |
| Topology.NumaTopology.GetCpusInNode | src/main/java/com/reene4444/cpupinning/core/NumaTopology.java:94-96 | Each node's ascending core list, and the empty list for an unknown node |
| Topology.NumaTopology.GetLocalNumaCpus | src/main/java/com/reene4444/cpupinning/core/NumaTopology.java:101-104 | The cores of node 0: the lower half on the split, all cores otherwise |
| Topology.NumaTopology.GetNumaNodes | src/main/java/com/reene4444/cpupinning/core/NumaTopology.java:109-111 | The recorded nodes are {0, 1} on the split and {0} otherwise |
| Topology.TopologyHolder.GetInstance | src/main/java/com/reene4444/cpupinning/core/NumaTopology.java:22-27 | Detection runs on the first call only; every later call returns the same instance |
| Topology.LayoutConsistent | src/main/java/com/reene4444/cpupinning/core/NumaTopology.java:57-82 | The two tables are mutual inverses: c is listed under node k iff c maps to k |
| Topology.NodesDisjoint | src/main/java/com/reene4444/cpupinning/core/NumaTopology.java:63-72 | No core is listed under two nodes |
| Topology.LayoutWithinMachine | src/main/java/com/reene4444/cpupinning/core/NumaTopology.java:61-72 | Every listed core is below cpuCount and each node's list ascends strictly |
| Topology.LayoutCoversMachine | src/main/java/com/reene4444/cpupinning/core/NumaTopology.java:32-82 | Every core 0 .. cpuCount - 1 has a node, except on the split of an odd count |
| Topology.OddLastCoreUnassigned | src/main/java/com/reene4444/cpupinning/core/NumaTopology.java:61-72 | On the split of an odd count, core cpuCount - 1 is in no node and has no entry in the core table |
| Adaptive.Offer | src/main/java/com/reene4444/cpupinning/adaptive/AdaptiveAffinityEngine.java:215-220 | Offering appends the sample and drops the oldest only when the history already held 10; a history of at most 10 stays at most 10 |
| Adaptive.ReplayKeepsLatest | src/main/java/com/reene4444/cpupinning/adaptive/AdaptiveAffinityEngine.java:208-227 | After any sequence of samples, the history is exactly the last min(10, n) samples in arrival order |
| Adaptive.Mean | src/main/java/com/reene4444/cpupinning/adaptive/AdaptiveAffinityEngine.java:229-235 | The average is 0 for an empty history, and otherwise times the count equals the sum |
| Adaptive.ShouldMigrateInIntegers | src/main/java/com/reene4444/cpupinning/adaptive/AdaptiveAffinityEngine.java:191-194 | The migration rule in whole numbers: latency sum > 100 per sample, or no QPS sample, or QPS sum < 100 per sample |
| Adaptive.ShouldMigrate | src/main/java/com/reene4444/cpupinning/adaptive/AdaptiveAffinityEngine.java:191-194 | A thread with no QPS sample always qualifies; a thread that does not qualify has a latency sum of at most 100 per sample and a QPS sum of at least 100 per sample |
| Adaptive.NoQpsSampleMigrates | src/main/java/com/reene4444/cpupinning/adaptive/AdaptiveAffinityEngine.java:191-194 | A thread with no QPS sample always qualifies for migration |
| Adaptive.DefaultMapping | src/main/java/com/reene4444/cpupinning/adaptive/AdaptiveAffinityEngine.java:131-149 | Only CPU-intensive, IO-intensive and mixed work are mapped |
| Adaptive.OptimalCpusTable | src/main/java/com/reene4444/cpupinning/adaptive/AdaptiveAffinityEngine.java:97-149 | With the installed mapping on n cores: lower half for CPU work, upper half for IO, the first min(4, n) for low latency, all cores otherwise |
| Adaptive.OptimalCpus | src/main/java/com/reene4444/cpupinning/adaptive/AdaptiveAffinityEngine.java:97-129 | The choice is empty iff no non-empty mapping exists and either no core is available or the work is CPU-intensive on one core; a default choice lies within the available cores or below their count |
| Adaptive.CpuAndIoPartition | src/main/java/com/reene4444/cpupinning/adaptive/AdaptiveAffinityEngine.java:131-149 | The CPU-intensive and IO-intensive sets are disjoint and together cover every core |
| Adaptive.PreferredEmptyIff | src/main/java/com/reene4444/cpupinning/adaptive/AdaptiveAffinityEngine.java:97-129 | With at least one core, the preferred set is empty iff the work is CPU-intensive on a single core |
| Adaptive.AutoPinTarget | src/main/java/com/reene4444/cpupinning/adaptive/AdaptiveAffinityEngine.java:45-49 | The auto-pin target is empty only when no core is available |
| Adaptive.NumaTarget | src/main/java/com/reene4444/cpupinning/adaptive/AdaptiveAffinityEngine.java:62-68 | The NUMA target is the set of node-0 cores, or every available core when node 0 lists none |
| Adaptive.NumaTargetIsNodeZero | src/main/java/com/reene4444/cpupinning/adaptive/AdaptiveAffinityEngine.java:62-68 | On the detected topology of an n-core machine, the NUMA target is the lower half of the cores on the two-node split and every core otherwise |
| Adaptive.ReviewPreserves | src/main/java/com/reene4444/cpupinning/adaptive/AdaptiveAffinityEngine.java:164-184 | A review keeps exactly the live threads and changes no type or history; a thread's cores change only to its preferred cores |
| Adaptive.ReviewIdempotent | src/main/java/com/reene4444/cpupinning/adaptive/AdaptiveAffinityEngine.java:164-184 | A second review with no new samples moves no thread and changes nothing |
| Adaptive.AutoPinnedNeverMoves | src/main/java/com/reene4444/cpupinning/adaptive/AdaptiveAffinityEngine.java:45-57 | A thread auto-pinned to a non-empty preferred set already sits on its target, so no review moves it |
| Adaptive.NumaPinnedMovesToAll | src/main/java/com/reene4444/cpupinning/adaptive/AdaptiveAffinityEngine.java:62-75 | A NUMA-pinned thread (mixed, on the lower half) that should migrate is moved to every core |
| Adaptive.SingleCoreCpuIntensive | src/main/java/com/reene4444/cpupinning/adaptive/AdaptiveAffinityEngine.java:97-129 | On one core, CPU-intensive work is pinned to core 0; a review that finds it slow moves it to the empty set, whose pin always fails |
| Adaptive.ThreadMetrics.constructor | src/main/java/com/reene4444/cpupinning/adaptive/AdaptiveAffinityEngine.java:210-213 | A new record holds the type and cores with empty histories |
| Adaptive.ThreadMetrics.RecordLatency | src/main/java/com/reene4444/cpupinning/adaptive/AdaptiveAffinityEngine.java:215-220 | The latency history becomes the offered history; nothing else changes |
| Adaptive.ThreadMetrics.RecordQps | src/main/java/com/reene4444/cpupinning/adaptive/AdaptiveAffinityEngine.java:222-227 | The QPS history becomes the offered history; nothing else changes |
| Adaptive.AdaptiveAffinityEngine.constructor | src/main/java/com/reene4444/cpupinning/adaptive/AdaptiveAffinityEngine.java:29-40 | The available cores are 0 .. cpuCount - 1, the default mapping is installed and no thread is tracked |
| Adaptive.AdaptiveAffinityEngine.InitializeWorkloadMapping | src/main/java/com/reene4444/cpupinning/adaptive/AdaptiveAffinityEngine.java:131-149 | The three default entries are written over the mapping; tracked threads are untouched |
| Adaptive.AdaptiveAffinityEngine.SelectOptimalCpus | src/main/java/com/reene4444/cpupinning/adaptive/AdaptiveAffinityEngine.java:97-129 | The loops compute the mapped set or the per-type default |
| Adaptive.AdaptiveAffinityEngine.AutoPinByWorkload | src/main/java/com/reene4444/cpupinning/adaptive/AdaptiveAffinityEngine.java:45-57 | On a successful pin the thread gets a fresh record (type, target), replacing any earlier one; on failure nothing changes |
| Adaptive.AdaptiveAffinityEngine.NumaAwarePin | src/main/java/com/reene4444/cpupinning/adaptive/AdaptiveAffinityEngine.java:62-75 | On a successful pin to the NUMA target the thread is tracked as mixed work; on failure nothing changes |
| Adaptive.AdaptiveAffinityEngine.Track | src/main/java/com/reene4444/cpupinning/adaptive/AdaptiveAffinityEngine.java:71 | The thread's entry becomes a fresh record with the given type and cores and empty histories; every other entry and the migration count stay |
| Adaptive.AdaptiveAffinityEngine.RecordLatency | src/main/java/com/reene4444/cpupinning/adaptive/AdaptiveAffinityEngine.java:80-85 | A tracked thread's latency history takes the sample; an untracked thread changes nothing and gets no record |
| Adaptive.AdaptiveAffinityEngine.RecordQps | src/main/java/com/reene4444/cpupinning/adaptive/AdaptiveAffinityEngine.java:87-92 | A tracked thread's QPS history takes the sample; an untracked thread changes nothing and gets no record |
| Adaptive.AdaptiveAffinityEngine.ReviewAndMigrate | src/main/java/com/reene4444/cpupinning/adaptive/AdaptiveAffinityEngine.java:164-189 | The tracked threads become the reviewed table, and the counter grows by exactly the number of moved threads, so it never decreases |
| Adaptive.AdaptiveAffinityEngine.ReviewThread | src/main/java/com/reene4444/cpupinning/adaptive/AdaptiveAffinityEngine.java:165-184 | One iteration drops a dead thread or reviews a live one, and counts a move exactly when the cores change |
| Adaptive.AdaptiveAffinityEngine.ForgetThread | src/main/java/com/reene4444/cpupinning/adaptive/AdaptiveAffinityEngine.java:169-172 | A dead thread's record is removed and nothing else changes |
| Adaptive.AdaptiveAffinityEngine.MoveThread | src/main/java/com/reene4444/cpupinning/adaptive/AdaptiveAffinityEngine.java:175-182 | A migrating thread gets its preferred cores and the counter grows by one |
| Business.Allocated | src/main/java/com/reene4444/cpupinning/business/BusinessIsolationManager.java:46-49 | The held cores include every registered pool's cores |
| Business.RegisterDecision | src/main/java/com/reene4444/cpupinning/business/BusinessIsolationManager.java:51-57 | Registration goes through iff the requested cores meet no pool's cores; a refusal carries the overlap, which is exactly the requested cores that some pool already holds, and is non-empty |
| Business.RegisterKeepsDisjoint | src/main/java/com/reene4444/cpupinning/business/BusinessIsolationManager.java:46-60 | A registration that goes through keeps the pools pairwise disjoint |
| Business.ReRegisterOverlapRefused | src/main/java/com/reene4444/cpupinning/business/BusinessIsolationManager.java:46-57 | Re-registering a name with any of its own cores is refused |
| Business.EmptyPoolRegistersButCannotPin | src/main/java/com/reene4444/cpupinning/business/BusinessIsolationManager.java:51-60 | An empty pool always registers, and pinning to it always fails |
| Business.AfterMigration | src/main/java/com/reene4444/cpupinning/business/BusinessIsolationManager.java:106-109 | Migration changes no pool name |
| Business.MigrationMovesThread | src/main/java/com/reene4444/cpupinning/business/BusinessIsolationManager.java:98-111 | Between two different pools the thread ends in the target and not in the source, and no other pool changes |
| Business.SelfMigrationDropsThread | src/main/java/com/reene4444/cpupinning/business/BusinessIsolationManager.java:106-109 | Migrating a thread from a pool to itself leaves it outside that pool |
| Business.CpuPool.constructor | src/main/java/com/reene4444/cpupinning/business/BusinessIsolationManager.java:128-131 | A new pool has its name and cores and no thread |
| Business.CpuPool.GetThreadCount | src/main/java/com/reene4444/cpupinning/business/BusinessIsolationManager.java:153-155 | The count is 0 iff the pool has no thread |
| Business.CpuPool.GetCpus | src/main/java/com/reene4444/cpupinning/business/BusinessIsolationManager.java:137-139 | The pool's cores, as a value the caller cannot alias into the pool |
| Business.CpuPool.GetThreads | src/main/java/com/reene4444/cpupinning/business/BusinessIsolationManager.java:141-143 | The pool's current threads, as a value the caller cannot alias into the pool |
| Business.CpuPool.AddThread | src/main/java/com/reene4444/cpupinning/business/BusinessIsolationManager.java:145-147 | The thread joins the pool |
| Business.CpuPool.RemoveThread | src/main/java/com/reene4444/cpupinning/business/BusinessIsolationManager.java:149-151 | The thread leaves the pool |
| Business.BusinessIsolationManager.constructor | src/main/java/com/reene4444/cpupinning/business/BusinessIsolationManager.java:24-30 | The available cores are 0 .. cpuCount - 1 and no pool or thread is registered |
| Business.BusinessIsolationManager.AllocatedCpus | src/main/java/com/reene4444/cpupinning/business/BusinessIsolationManager.java:46-49 | The loop collects the union of every registered pool's cores |
| Business.BusinessIsolationManager.RegisterBusinessPool | src/main/java/com/reene4444/cpupinning/business/BusinessIsolationManager.java:42-65 | A refusal leaves the pools untouched; otherwise a fresh, empty pool is filed under the name, replacing any pool of that name, and the pools stay pairwise disjoint |
| Business.BusinessIsolationManager.PinToBusiness | src/main/java/com/reene4444/cpupinning/business/BusinessIsolationManager.java:70-86 | An unknown name answers false; otherwise the answer is the pin's, and only a successful pin records the thread's business and adds it to the pool |
| Business.BusinessIsolationManager.GetBusinessPool | src/main/java/com/reene4444/cpupinning/business/BusinessIsolationManager.java:91-93 | A pool is found iff the name is registered, and it is that name's pool with its cores |
| Business.BusinessIsolationManager.MigrateThread | src/main/java/com/reene4444/cpupinning/business/BusinessIsolationManager.java:98-111 | An unknown pool answers false and changes nothing; on a failed pin the source pool keeps the thread; on success membership is the migrated table |
| Business.BusinessIsolationManager.GetBusinessNames | src/main/java/com/reene4444/cpupinning/business/BusinessIsolationManager.java:116-118 | The names are exactly those under which a pool is found |
| Business.ManagerHolder.GetInstance | src/main/java/com/reene4444/cpupinning/business/BusinessIsolationManager.java:32-37 | The first call creates a valid manager with no pool or thread, cores 0 .. cpuCount - 1 and the given platform; later calls return the same one |
| Virtual.PinnedAfter | src/main/java/com/reene4444/cpupinning/virtual/VirtualThreadPinner.java:84-101 | Running tasks never clears a flag |
| Virtual.PinnersConcat | src/main/java/com/reene4444/cpupinning/virtual/VirtualThreadPinner.java:92-159 | Two batches pin what the first pins, then what the second pins from the flags the first left |
| Virtual.Pinners | src/main/java/com/reene4444/cpupinning/virtual/VirtualThreadPinner.java:92-159 | The pin calls of a task history: at most one per task, and never by a thread whose flag was already set |
| Virtual.PinnedAfterIsGuardedRunners | src/main/java/com/reene4444/cpupinning/virtual/VirtualThreadPinner.java:92-181 | A thread's flag is set iff it was set before or the thread ran a task that came through execute or submit |
| Virtual.PinnersDistinct | src/main/java/com/reene4444/cpupinning/virtual/VirtualThreadPinner.java:92-101 | Each thread pins at most once per wrapper, and only if its flag was not already set |
| Virtual.PinnersOnlyRunners | src/main/java/com/reene4444/cpupinning/virtual/VirtualThreadPinner.java:92-159 | Every pinning thread ran some task that came through execute or submit |
| Virtual.OwnThreadEveryTaskPins | src/main/java/com/reene4444/cpupinning/virtual/VirtualThreadPinner.java:92-101 | When each guarded task runs on its own unflagged thread, every task pins |
| Virtual.UnflaggedRunnerPins | src/main/java/com/reene4444/cpupinning/virtual/VirtualThreadPinner.java:92-159 | The runner of a task that came through execute or submit, whose flag was clear when the history began, appears among the pinning threads |
| Virtual.SharedThreadPinsOnce | src/main/java/com/reene4444/cpupinning/virtual/VirtualThreadPinner.java:92-101 | When one thread runs every task, it calls pinThread at most once |
| Virtual.SharedThreadPinsExactlyOnce | src/main/java/com/reene4444/cpupinning/virtual/VirtualThreadPinner.java:92-101 | When one unflagged thread runs every task and at least one came through execute or submit, the pin calls are exactly one, by that thread |
| Virtual.UnguardedNeverPin | src/main/java/com/reene4444/cpupinning/virtual/VirtualThreadPinner.java:161-181 | Tasks passed through invokeAll or invokeAny never pin and set no flag |
| Virtual.PinnedVirtualThreadExecutor.constructor | src/main/java/com/reene4444/cpupinning/virtual/VirtualThreadPinner.java:86-89 | A new wrapper has its cores, no flag set, no pin call and no task |
| Virtual.PinnedVirtualThreadExecutor.Run | src/main/java/com/reene4444/cpupinning/virtual/VirtualThreadPinner.java:92-181 | After shutdown a task is rejected; otherwise a guarded task pins its runner iff the runner's flag was clear, sets the flag whatever the pin returned, and the pin log stays equal to the pinners of the task history |
| Virtual.PinnedVirtualThreadExecutor.Shutdown | src/main/java/com/reene4444/cpupinning/virtual/VirtualThreadPinner.java:103-111 | The wrapper is shut down; flags, pin log and history are unchanged |
| Virtual.VirtualThreadPinner.constructor | src/main/java/com/reene4444/cpupinning/virtual/VirtualThreadPinner.java:22-28 | The available cores are 0 .. cpuCount - 1 and the registry is empty |
| Virtual.VirtualThreadPinner.FindInvalidCore | src/main/java/com/reene4444/cpupinning/virtual/VirtualThreadPinner.java:40-45 | Reports no core iff every requested core is available; a reported core is requested and unavailable |
| Virtual.VirtualThreadPinner.CreatePinnedExecutor | src/main/java/com/reene4444/cpupinning/virtual/VirtualThreadPinner.java:35-69 | Empty or invalid cores are refused with nothing registered; otherwise a fresh wrapper is filed under the next, previously unused id |
| Virtual.VirtualThreadPinner.CreatePinnedExecutorForCore | src/main/java/com/reene4444/cpupinning/virtual/VirtualThreadPinner.java:74-76 | Succeeds iff the core is available; a refusal reports that core and changes nothing; success files a fresh, valid, unpinned, not shut down wrapper for exactly that core under the next, previously unused id |
| Virtual.VirtualThreadPinner.Shutdown | src/main/java/com/reene4444/cpupinning/virtual/VirtualThreadPinner.java:187-192 | Every registered wrapper is shut down with its flags, pin log and history unchanged, so a valid wrapper stays valid; the registry is emptied, and numbering continues |

## Left out

- Affinity.PinThenGet: assumes a kernel that stores exactly the mask it is handed. The binding at `src/main/java/com/reene4444/cpupinning/core/CpuAffinity.java:23` declares the `cpu_set_t *` argument of `sched_setaffinity` as a plain `long`, so the mask travels by value and the kernel reads 8 bytes at the address equal to the mask. The model takes the kernel's return code as a parameter and does not model which mask, if any, the kernel stores.
- Native calls: JNA loading, `sched_setaffinity`/`sched_getaffinity`, the pid lookup and `Runtime.availableProcessors` are foreign code. Their results are parameters: the kernel's return code, the mask it reports, `cpuCount` and the platform.
- Whose affinity mask a pin changes: the native call receives the process id, or the Java thread id as a fallback (`src/main/java/com/reene4444/cpupinning/core/CpuAffinity.java:40`, `108-116`), not the calling thread's id. The model records which thread called `pinThread` and whether the call succeeded, not whose mask changed.
- The wrapper keeps the caller's `Set` by reference (`src/main/java/com/reene4444/cpupinning/virtual/VirtualThreadPinner.java:64`, `88`), so a caller that later mutates that set changes the cores later pins use. The model's `cores` is a constant value and cannot capture this.
- Virtual.VirtualThreadPinner.CreatePinnedExecutor: `executorCounter` is an `AtomicInteger` (`src/main/java/com/reene4444/cpupinning/virtual/VirtualThreadPinner.java:65`) that wraps to negative ids after 2^31 - 1 creations. The model's ids are unbounded and stay in [1, executorCounter].
- `reviewAndMigrate` calls `pinThread` for a moved thread and ignores the answer. The model keeps that: a move is recorded whatever the pin answers, so the call is not represented.
- Concurrency: `ConcurrentHashMap`, the concurrent queues, `ReentrantLock`, `synchronized` and `AtomicInteger`/`AtomicLong` are modelled as sequential state. The periodic scheduler (`scheduleAtFixedRate`, its catch-and-continue, and `shutdown` of the engine) is left out; a tick is one call of `ReviewAndMigrate`.
- Thread identity and `Thread.isAlive` are a natural-number id and a set of live ids passed to `ReviewAndMigrate`.
- Adaptive.Mean: the averages are exact rational means, not `double`. Sums of `long` samples do not overflow in the model.
- Adaptive.ShouldMigrateInIntegers: the integer restatement agrees with the exact means, not with floating-point rounding.
- Micrometer metrics (the registry and the migrations counter) and all logging are left out.
- The reflective choice of a virtual-thread-per-task executor or a cached pool, and the delegated `isTerminated`, `awaitTermination`, and `shutdownNow`'s returned list, are library calls. Which thread runs a task is an input of each task. Futures and task results are not modelled.
- Virtual.PinnedVirtualThreadExecutor.Run: a task the underlying executor would reject for another reason than shutdown is not modelled.
- `NumaTopology`'s exception path is modelled as a probe that fails before anything is written. The source's catch block writes into tables that may already be partly filled. The model does not capture a failure in the middle of the Linux split.
- `getCpus`/`getThreads`/`getBusinessName` return copies or constants; the model returns the values, since nothing can alias a Dafny set.
- `BusinessIsolationManager.availableCpus` is built but never consulted; the model keeps it for fidelity only.
- Null arguments are not representable; the null checks in `pinThread` and `createPinnedExecutor` coincide with the empty-set case in the model.
- The Spring wiring, aspects and annotations, the chaos load generator, the monitoring metrics and the examples are not part of this model.

The comments in `src/main/java/com/reene4444/cpupinning/core/NumaTopology.java` state the
intent to read `/sys/devices/system/node/node*/cpulist` on Linux (line 33), call the
detection simplified and say a production version would read the `/sys` filesystem
(line 58), and assume two NUMA nodes for multi-socket systems (line 60). The code never
reads the platform topology: on Linux it always applies the two-node split, and on other
operating systems, or when the probe throws, it uses a single node. The model follows the
code.

For an odd core count, the split's second round stops at 2 * (cpuCount / 2), so the last
core gets no node, and `getNumaNode` answers 0 for it although node 0 does not list it.
See `Topology.OddLastCoreUnassigned`.

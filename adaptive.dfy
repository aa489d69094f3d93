/** The adaptive affinity engine: it pins threads to cores chosen by workload type or
    NUMA locality, keeps a short history of latency and QPS samples per pinned thread,
    and on each periodic review forgets dead threads and moves slow or idle ones to
    the cores their workload type prefers. */
module Adaptive {
  import opened Common
  import opened Affinity
  import opened Workload
  import opened Topology

  /** How many samples of each kind a thread keeps. */
  const HistorySize: int := 10

  /** A thread whose mean latency exceeds this (in ms) is reconsidered. */
  const LatencyLimit: real := 100.0

  /** A thread whose mean QPS is below this is reconsidered. */
  const QpsFloor: real := 100.0

  /** What the engine knows about one pinned thread. */
  datatype MetricsView = MetricsView(
    workloadType: WorkloadType,
    currentCpus: set<int>,
    latencyHistory: seq<int>,
    qpsHistory: seq<int>)

  // ---------------------------------------------------------------------------
  // Sample histories

  /** Offering a sample to a history: append it, then drop the oldest sample when
      the history has grown beyond HistorySize. */
  function Offer(history: seq<int>, sample: int): (h: seq<int>)
    ensures |h| > 0 && h[|h| - 1] == sample
    ensures |history| < HistorySize ==> h == history + [sample]
    ensures |history| >= HistorySize ==> h == history[1..] + [sample]
    ensures |history| <= HistorySize ==> |h| <= HistorySize
  {
    var appended := history + [sample];
    if |appended| > HistorySize then appended[1..] else appended
  }

  /** The history left after offering `samples`, in order, to an empty one. */
  function Replay(samples: seq<int>): (h: seq<int>)
  {
    if samples == [] then [] else Offer(Replay(samples[..|samples| - 1]), samples[|samples| - 1])
  }

  /** The history always holds exactly the most recent min(10, n) samples. */
  lemma {:induction false} ReplayKeepsLatest(samples: seq<int>)
    ensures |samples| <= HistorySize ==> Replay(samples) == samples
    ensures |samples| > HistorySize ==> Replay(samples) == samples[|samples| - HistorySize..]
  {
    if samples != [] {
      var prefix := samples[..|samples| - 1];
      var last := samples[|samples| - 1];
      ReplayKeepsLatest(prefix);
      assert samples == prefix + [last];
      assert Replay(samples) == Offer(Replay(prefix), last);
      if |prefix| >= HistorySize {
        assert Replay(prefix)[1..] == prefix[|prefix| - HistorySize + 1..];
        assert samples[|samples| - HistorySize..] == prefix[|prefix| - HistorySize + 1..] + [last];
      }
    }
  }

  /** The sum of a history. */
  function Sum(h: seq<int>): (s: int)
  {
    if h == [] then 0 else Sum(h[..|h| - 1]) + h[|h| - 1]
  }

  /** The arithmetic mean of a history, 0 for an empty one. */
  function Mean(h: seq<int>): (m: real)
    ensures |h| == 0 ==> m == 0.0
    ensures |h| > 0 ==> m * (|h| as real) == Sum(h) as real
  {
    if |h| == 0 then 0.0 else (Sum(h) as real) / (|h| as real)
  }

  /** `shouldMigrate`: mean latency above 100 ms or mean QPS below 100. */
  predicate ShouldMigrate(v: MetricsView): (r: bool)
    ensures |v.qpsHistory| == 0 ==> r
    ensures !r ==>
      Sum(v.latencyHistory) <= 100 * |v.latencyHistory| &&
      |v.qpsHistory| > 0 && Sum(v.qpsHistory) >= 100 * |v.qpsHistory|
  {
    MeanAbove(v.latencyHistory);
    MeanBelow(v.qpsHistory);
    Mean(v.latencyHistory) > LatencyLimit || Mean(v.qpsHistory) < QpsFloor
  }

  /** The migration test in whole numbers: the latency sum exceeds 100 per sample, or
      there is no QPS sample, or the QPS sum falls short of 100 per sample. */
  lemma ShouldMigrateInIntegers(v: MetricsView)
    ensures ShouldMigrate(v) <==>
      (|v.latencyHistory| > 0 && Sum(v.latencyHistory) > 100 * |v.latencyHistory|) ||
      |v.qpsHistory| == 0 ||
      Sum(v.qpsHistory) < 100 * |v.qpsHistory|
  {
    MeanAbove(v.latencyHistory);
    MeanBelow(v.qpsHistory);
  }

  lemma MeanAbove(h: seq<int>)
    ensures Mean(h) > 100.0 <==> |h| > 0 && Sum(h) > 100 * |h|
  {
    if |h| > 0 {
      CompareWithHundred(Mean(h), Sum(h), |h|);
    }
  }

  lemma MeanBelow(h: seq<int>)
    ensures Mean(h) < 100.0 <==> |h| == 0 || Sum(h) < 100 * |h|
  {
    if |h| > 0 {
      CompareWithHundred(Mean(h), Sum(h), |h|);
    }
  }

  /** A mean m of k > 0 samples summing to s lies above (below) 100 exactly when s
      lies above (below) 100 * k. */
  lemma CompareWithHundred(m: real, s: int, k: int)
    requires k > 0 && m * (k as real) == s as real
    ensures m > 100.0 <==> s > 100 * k
    ensures m < 100.0 <==> s < 100 * k
  {
    var n := k as real;
    assert (m - 100.0) * n == m * n - 100.0 * n;
    assert (100 * k) as real == 100.0 * n;
    ProductSign(m - 100.0, n);
  }

  /** Multiplying by a positive number keeps the sign. */
  lemma ProductSign(x: real, y: real)
    requires y > 0.0
    ensures x * y > 0.0 <==> x > 0.0
    ensures x * y < 0.0 <==> x < 0.0
  {
  }

  /** A thread that has not reported any QPS sample has mean QPS 0 and is always a
      migration candidate, whatever its latency. */
  lemma NoQpsSampleMigrates(v: MetricsView)
    requires v.qpsHistory == []
    ensures ShouldMigrate(v)
  {
  }

  // ---------------------------------------------------------------------------
  // Core selection

  /** `initializeWorkloadMapping`: the lower half of the available cores for
      CPU-intensive work, the upper half for I/O-intensive work, all of them for
      mixed work; no entry for the other types. */
  function DefaultMapping(available: set<int>): (m: map<WorkloadType, set<int>>)
    ensures m.Keys == {CpuIntensive, IoIntensive, Mixed}
  {
    var half := |available| / 2;
    map[CpuIntensive := CoreRange(0, half),
        IoIntensive := CoreRange(half, |available|),
        Mixed := available]
  }

  /** `selectOptimalCpus`: the mapped set when it exists and is non-empty, otherwise a
      default computed from the number of available cores. */
  function OptimalCpus(mapping: map<WorkloadType, set<int>>, available: set<int>,
                       t: WorkloadType): (cpus: set<int>)
    ensures cpus == {} <==>
      (t !in mapping || mapping[t] == {}) &&
      (|available| == 0 || (t == CpuIntensive && |available| == 1))
    ensures (t !in mapping || mapping[t] == {}) ==>
      forall c :: c in cpus ==> c in available || 0 <= c < |available|
  {
    if t in mapping && mapping[t] != {} then mapping[t]
    else
      var cpuCount := |available|;
      match t
      case CpuIntensive => CoreRange(0, cpuCount / 2)
      case IoIntensive => CoreRange(cpuCount / 2, cpuCount)
      case LowLatency => CoreRange(0, if cpuCount < 4 then cpuCount else 4)
      case _ => available
  }

  /** The preferred cores per workload type on a machine with `n` cores, whether they
      come from the mapping or from the defaults. */
  function PreferredCores(n: nat, t: WorkloadType): (cpus: set<int>)
  {
    match t
    case CpuIntensive => CoreRange(0, n / 2)
    case IoIntensive => CoreRange(n / 2, n)
    case LowLatency => CoreRange(0, if n < 4 then n else 4)
    case _ => CoreRange(0, n)
  }

  /** With the mapping the engine installs, each workload type gets the cores the
      table above lists: lower half, upper half, the first four, or all of them. */
  lemma OptimalCpusTable(n: nat, t: WorkloadType)
    ensures OptimalCpus(DefaultMapping(CoreRange(0, n)), CoreRange(0, n), t) == PreferredCores(n, t)
  {
    if t.LowLatency? || t.MemoryIntensive? {
      UnmappedTypeCores(n, t);
    } else {
      MappedTypeCores(n, t);
    }
  }

  /** The types the installed mapping lists get their mapped cores (or, when those are
      empty, the default, which is the same set). */
  lemma MappedTypeCores(n: nat, t: WorkloadType)
    requires !(t.LowLatency? || t.MemoryIntensive?)
    ensures OptimalCpus(DefaultMapping(CoreRange(0, n)), CoreRange(0, n), t) == PreferredCores(n, t)
  {
    CoreRangeSize(0, n);
  }

  /** The types the installed mapping omits get the defaults. */
  lemma UnmappedTypeCores(n: nat, t: WorkloadType)
    requires t.LowLatency? || t.MemoryIntensive?
    ensures OptimalCpus(DefaultMapping(CoreRange(0, n)), CoreRange(0, n), t) == PreferredCores(n, t)
  {
    CoreRangeSize(0, n);
    assert t !in DefaultMapping(CoreRange(0, n));
  }

  /** CPU-intensive and I/O-intensive threads never share a core, and together they
      cover every core. */
  lemma CpuAndIoPartition(n: nat)
    ensures var mapping := DefaultMapping(CoreRange(0, n));
      var cpu := OptimalCpus(mapping, CoreRange(0, n), CpuIntensive);
      var io := OptimalCpus(mapping, CoreRange(0, n), IoIntensive);
      cpu * io == {} && cpu + io == CoreRange(0, n)
  {
    OptimalCpusTable(n, CpuIntensive);
    OptimalCpusTable(n, IoIntensive);
  }

  /** On a machine with at least one core, the preferred set is empty only for
      CPU-intensive work on a single core (its lower half is empty). */
  lemma PreferredEmptyIff(n: nat, t: WorkloadType)
    requires n >= 1
    ensures PreferredCores(n, t) == {} <==> t == CpuIntensive && n == 1
  {
    if t == CpuIntensive && n >= 2 {
      assert 0 in PreferredCores(n, t);
    } else if t != CpuIntensive {
      assert n - 1 in PreferredCores(n, t) || 0 in PreferredCores(n, t);
    }
  }

  /** `autoPinByWorkload`'s target: the preferred cores, or every available core when
      there is no preferred one. */
  function AutoPinTarget(mapping: map<WorkloadType, set<int>>, available: set<int>,
                         t: WorkloadType): (cpus: set<int>)
    ensures cpus == {} ==> available == {}
  {
    var preferred := OptimalCpus(mapping, available, t);
    if preferred == {} then available else preferred
  }

  /** `numaAwarePin`'s target: the cores of the local NUMA node, or every available
      core when that node lists none. */
  function NumaTarget(localCpus: seq<int>, available: set<int>): (cpus: set<int>)
    ensures localCpus != [] ==> forall c :: c in cpus <==> c in localCpus
    ensures localCpus == [] ==> cpus == available
  {
    if localCpus == [] then available else set c | c in localCpus
  }

  /** With the detected topology of an n-core machine, the NUMA target is node 0's
      cores: the lower half on the two-node split, every core otherwise. */
  lemma NumaTargetIsNodeZero(n: nat, detection: Detection)
    ensures NumaTarget(DetectedLayout(n, detection).nodeToCpus[0], CoreRange(0, n))
         == if IsSplit(n, detection) then CoreRange(0, n / 2) else CoreRange(0, n)
  {
    var local := DetectedLayout(n, detection).nodeToCpus[0];
    var hi := if IsSplit(n, detection) then n / 2 else n;
    assert local == Ascending(0, hi);
    forall c
      ensures c in NumaTarget(local, CoreRange(0, n)) <==> c in CoreRange(0, hi)
    {
      AscendingElements(0, hi, c);
    }
  }

  // ---------------------------------------------------------------------------
  // Periodic review

  /** A live thread is moved when it should migrate and its preferred cores differ
      from its current ones. */
  predicate Migrates(v: MetricsView, mapping: map<WorkloadType, set<int>>, available: set<int>)
  {
    ShouldMigrate(v) && OptimalCpus(mapping, available, v.workloadType) != v.currentCpus
  }

  /** The review of one live thread: a moved thread's current cores become its
      preferred cores; nothing else about it changes. */
  function ReviewOne(v: MetricsView, mapping: map<WorkloadType, set<int>>,
                     available: set<int>): (r: MetricsView)
  {
    if Migrates(v, mapping, available)
    then v.(currentCpus := OptimalCpus(mapping, available, v.workloadType))
    else v
  }

  /** The tracked threads after a review pass: the dead ones are dropped and the
      live ones reviewed. */
  function Reviewed(m: map<ThreadId, MetricsView>, alive: set<ThreadId>,
                    mapping: map<WorkloadType, set<int>>, available: set<int>)
    : (r: map<ThreadId, MetricsView>)
  {
    map t | t in m && t in alive :: ReviewOne(m[t], mapping, available)
  }

  /** The threads among `among` that a review pass moves. */
  function MovedAmong(m: map<ThreadId, MetricsView>, alive: set<ThreadId>,
                      mapping: map<WorkloadType, set<int>>, available: set<int>,
                      among: set<ThreadId>): (moved: set<ThreadId>)
  {
    set t | t in among && t in m && t in alive && Migrates(m[t], mapping, available)
  }

  /** A review pass forgets exactly the dead threads and changes no workload type
      and no history; it changes a thread's cores only to its preferred cores. */
  lemma ReviewPreserves(m: map<ThreadId, MetricsView>, alive: set<ThreadId>,
                        mapping: map<WorkloadType, set<int>>, available: set<int>)
    ensures var r := Reviewed(m, alive, mapping, available);
      r.Keys == m.Keys * alive &&
      forall t :: t in r ==>
        r[t].workloadType == m[t].workloadType &&
        r[t].latencyHistory == m[t].latencyHistory &&
        r[t].qpsHistory == m[t].qpsHistory &&
        (r[t].currentCpus == m[t].currentCpus ||
         r[t].currentCpus == OptimalCpus(mapping, available, m[t].workloadType))
  {
  }

  /** A second review pass with no new samples moves nothing and changes nothing. */
  lemma {:induction false} ReviewIdempotent(m: map<ThreadId, MetricsView>, alive: set<ThreadId>,
                                            mapping: map<WorkloadType, set<int>>,
                                            available: set<int>)
    ensures var r := Reviewed(m, alive, mapping, available);
      MovedAmong(r, alive, mapping, available, r.Keys) == {} &&
      Reviewed(r, alive, mapping, available) == r
  {
    var r := Reviewed(m, alive, mapping, available);
    forall t | t in r
      ensures !Migrates(r[t], mapping, available)
    {
      assert r[t] == ReviewOne(m[t], mapping, available);
    }
    assert Reviewed(r, alive, mapping, available) == r;
  }

  /** A thread pinned by workload type whose preferred cores are non-empty sits on
      exactly those cores, so no review ever moves it. */
  lemma AutoPinnedNeverMoves(n: nat, t: WorkloadType, lat: seq<int>, qps: seq<int>)
    requires PreferredCores(n, t) != {}
    ensures var available := CoreRange(0, n);
      var mapping := DefaultMapping(available);
      var v := MetricsView(t, AutoPinTarget(mapping, available, t), lat, qps);
      !Migrates(v, mapping, available) && ReviewOne(v, mapping, available) == v
  {
    OptimalCpusTable(n, t);
  }

  /** A thread pinned to node 0 of the two-node split is a mixed-workload thread on
      the lower half; if it should migrate, the review moves it to every core. */
  lemma NumaPinnedMovesToAll(n: nat, lat: seq<int>, qps: seq<int>)
    requires n >= 2
    requires ShouldMigrate(MetricsView(Mixed, NumaTarget(Ascending(0, n / 2), CoreRange(0, n)), lat, qps))
    ensures var available := CoreRange(0, n);
      var v := MetricsView(Mixed, NumaTarget(Ascending(0, n / 2), available), lat, qps);
      Migrates(v, DefaultMapping(available), available) &&
      ReviewOne(v, DefaultMapping(available), available).currentCpus == available
  {
    var available := CoreRange(0, n);
    OptimalCpusTable(n, Mixed);
    AscendingElements(0, n / 2, n - 1);
    assert n - 1 !in NumaTarget(Ascending(0, n / 2), available);
  }

  /** On a single-core machine a CPU-intensive thread is pinned to core 0 (its
      preferred set is empty, so every core is used), and a review that finds it slow
      moves it to the empty set: a pin of the empty set, which always fails. */
  lemma SingleCoreCpuIntensive(lat: seq<int>, qps: seq<int>, platform: Platform, kernelResult: int)
    requires ShouldMigrate(MetricsView(CpuIntensive, {0}, lat, qps))
    ensures var available := CoreRange(0, 1);
      var mapping := DefaultMapping(available);
      var v := MetricsView(CpuIntensive, AutoPinTarget(mapping, available, CpuIntensive), lat, qps);
      v.currentCpus == {0} &&
      Migrates(v, mapping, available) &&
      ReviewOne(v, mapping, available).currentCpus == {} &&
      !PinThread(ReviewOne(v, mapping, available).currentCpus, platform, kernelResult).success
  {
    OptimalCpusTable(1, CpuIntensive);
    assert CoreRange(0, 1) == {0};
  }

  /** The view of thread t part-way through a review pass that still has `todo` to
      visit: visited threads are reviewed, the others are as they were. */
  function PassView(m0: map<ThreadId, MetricsView>, mapping: map<WorkloadType, set<int>>,
                    available: set<int>, todo: set<ThreadId>, t: ThreadId): (v: MetricsView)
    requires t in m0
  {
    if t in todo then m0[t] else ReviewOne(m0[t], mapping, available)
  }

  /** Visiting one more thread adds it to the moved threads exactly when it moves. */
  lemma MovedStep(m0: map<ThreadId, MetricsView>, alive: set<ThreadId>,
                  mapping: map<WorkloadType, set<int>>, available: set<int>,
                  todo: set<ThreadId>, thread: ThreadId)
    requires thread in todo && thread in m0
    ensures var before := MovedAmong(m0, alive, mapping, available, m0.Keys - todo);
      var after := MovedAmong(m0, alive, mapping, available, m0.Keys - (todo - {thread}));
      |after| == |before| + if thread in alive && Migrates(m0[thread], mapping, available) then 1 else 0
  {
    var before := MovedAmong(m0, alive, mapping, available, m0.Keys - todo);
    var after := MovedAmong(m0, alive, mapping, available, m0.Keys - (todo - {thread}));
    if thread in alive && Migrates(m0[thread], mapping, available) {
      assert after == before + {thread};
    } else {
      assert after == before;
    }
  }

  // ---------------------------------------------------------------------------
  // Mutable state

  /** The per-thread record the engine updates in place. */
  class ThreadMetrics {
    /** The thread this record belongs to (a proof device: records are never shared). */
    ghost const owner: ThreadId
    const workloadType: WorkloadType
    var currentCpus: set<int>
    var latencyHistory: seq<int>
    var qpsHistory: seq<int>

    /** The record as a value. */
    function View(): MetricsView
      reads this
    {
      MetricsView(workloadType, currentCpus, latencyHistory, qpsHistory)
    }

    constructor (ghost owner: ThreadId, workloadType: WorkloadType, cpus: set<int>)
      ensures this.owner == owner
      ensures View() == MetricsView(workloadType, cpus, [], [])
    {
      this.owner := owner;
      this.workloadType := workloadType;
      currentCpus := cpus;
      latencyHistory := [];
      qpsHistory := [];
    }

    /** `recordLatency`: offers the sample to the latency history. */
    method RecordLatency(latencyMs: int)
      modifies this
      ensures View() == old(View()).(latencyHistory := Offer(old(latencyHistory), latencyMs))
    {
      latencyHistory := latencyHistory + [latencyMs];
      if |latencyHistory| > HistorySize {
        latencyHistory := latencyHistory[1..];
      }
    }

    /** `recordQps`: offers the sample to the QPS history. */
    method RecordQps(qps: int)
      modifies this
      ensures View() == old(View()).(qpsHistory := Offer(old(qpsHistory), qps))
    {
      qpsHistory := qpsHistory + [qps];
      if |qpsHistory| > HistorySize {
        qpsHistory := qpsHistory[1..];
      }
    }
  }

  class AdaptiveAffinityEngine {
    const numaTopology: NumaTopology
    const platform: Platform
    const availableCpus: set<int>
    var workloadCpuMapping: map<WorkloadType, set<int>>
    var threadMetrics: map<ThreadId, ThreadMetrics>
    var migrationCount: nat

    /** The per-thread records the engine holds. */
    ghost function Objects(): set<ThreadMetrics>
      reads this
    {
      set t | t in threadMetrics :: threadMetrics[t]
    }

    /** The tracked threads, as values. */
    ghost function Metrics(): map<ThreadId, MetricsView>
      reads this, Objects()
    {
      map t | t in threadMetrics :: threadMetrics[t].View()
    }

    /** The mapping is the one installed at construction, and each record belongs to
        the thread it is filed under, so no record is shared by two threads. */
    ghost predicate Valid()
      reads this
    {
      workloadCpuMapping == DefaultMapping(availableCpus) &&
      forall t :: t in threadMetrics ==> threadMetrics[t].owner == t
    }

    /** The constructor: the available cores are 0 .. cpuCount - 1, the mapping is
        initialised and no thread is tracked. */
    constructor (cpuCount: nat, numaTopology: NumaTopology, platform: Platform)
      ensures Valid()
      ensures availableCpus == CoreRange(0, cpuCount)
      ensures this.numaTopology == numaTopology && this.platform == platform
      ensures threadMetrics == map[] && migrationCount == 0
    {
      this.numaTopology := numaTopology;
      this.platform := platform;
      var cpus := CollectRange(0, cpuCount);
      availableCpus := cpus;
      workloadCpuMapping := map[];
      threadMetrics := map[];
      migrationCount := 0;
      new;
      InitializeWorkloadMapping();
    }

    /** `initializeWorkloadMapping`: installs the three default entries. */
    method InitializeWorkloadMapping()
      modifies this
      ensures workloadCpuMapping == old(workloadCpuMapping) + DefaultMapping(availableCpus)
      ensures threadMetrics == old(threadMetrics) && migrationCount == old(migrationCount)
    {
      var cpuCount := |availableCpus|;
      var half := cpuCount / 2;
      var cpuIntensive := CollectRange(0, half);
      var ioIntensive := CollectRange(half, cpuCount);
      workloadCpuMapping := workloadCpuMapping[CpuIntensive := cpuIntensive];
      workloadCpuMapping := workloadCpuMapping[IoIntensive := ioIntensive];
      workloadCpuMapping := workloadCpuMapping[Mixed := availableCpus];
    }

    /** `selectOptimalCpus` */
    method SelectOptimalCpus(t: WorkloadType) returns (cpus: set<int>)
      ensures cpus == OptimalCpus(workloadCpuMapping, availableCpus, t)
    {
      if t in workloadCpuMapping && workloadCpuMapping[t] != {} {
        return workloadCpuMapping[t];
      }
      var cpuCount := |availableCpus|;
      match t {
        case CpuIntensive =>
          cpus := CollectRange(0, cpuCount / 2);
        case IoIntensive =>
          cpus := CollectRange(cpuCount / 2, cpuCount);
        case LowLatency =>
          var dedicatedCores := if cpuCount < 4 then cpuCount else 4;
          cpus := CollectRange(0, dedicatedCores);
        case _ =>
          cpus := availableCpus;
      }
    }

    /** `autoPinByWorkload`: pins to the preferred cores (all cores when there are
        none) and, when the pin succeeds, starts tracking the thread afresh. */
    method AutoPinByWorkload(thread: ThreadId, t: WorkloadType, kernelResult: int)
      requires Valid()
      modifies this
      ensures Valid()
      ensures var target := AutoPinTarget(workloadCpuMapping, availableCpus, t);
        Metrics() == if PinThread(target, platform, kernelResult).success
                     then old(Metrics())[thread := MetricsView(t, target, [], [])]
                     else old(Metrics())
      ensures migrationCount == old(migrationCount)
    {
      var preferredCpus := SelectOptimalCpus(t);
      if preferredCpus == {} {
        preferredCpus := availableCpus;
      }
      var success := PinThread(preferredCpus, platform, kernelResult).success;
      if success {
        Track(thread, t, preferredCpus);
      }
    }

    /** `numaAwarePin`: pins to the local NUMA node's cores (all cores when it lists
        none) and, when the pin succeeds, tracks the thread as a mixed workload. */
    method NumaAwarePin(thread: ThreadId, kernelResult: int)
      requires Valid()
      modifies this
      ensures Valid()
      ensures var target := NumaTarget(numaTopology.GetLocalNumaCpus(), availableCpus);
        Metrics() == if PinThread(target, platform, kernelResult).success
                     then old(Metrics())[thread := MetricsView(Mixed, target, [], [])]
                     else old(Metrics())
      ensures migrationCount == old(migrationCount)
    {
      var localCpus := numaTopology.GetLocalNumaCpus();
      var cpus: set<int>;
      if localCpus == [] {
        cpus := availableCpus;
      } else {
        cpus := set c | c in localCpus;
      }
      assert cpus == NumaTarget(numaTopology.GetLocalNumaCpus(), availableCpus);
      var success := PinThread(cpus, platform, kernelResult).success;
      if success {
        Track(thread, Mixed, cpus);
      }
    }

    /** Files a fresh record for `thread`, with empty histories, replacing any earlier one. */
    method Track(thread: ThreadId, t: WorkloadType, cpus: set<int>)
      requires Valid()
      modifies this
      ensures Valid()
      ensures Metrics() == old(Metrics())[thread := MetricsView(t, cpus, [], [])]
      ensures migrationCount == old(migrationCount)
    {
      var m := new ThreadMetrics(thread, t, cpus);
      threadMetrics := threadMetrics[thread := m];
    }

    /** `recordLatency`: offers the sample to a tracked thread's latency history;
        an untracked thread is ignored. */
    method RecordLatency(thread: ThreadId, latencyMs: int)
      requires Valid()
      modifies Objects()
      ensures Valid()
      ensures Metrics() == if thread in old(Metrics())
        then old(Metrics())[thread := old(Metrics())[thread].(
               latencyHistory := Offer(old(Metrics())[thread].latencyHistory, latencyMs))]
        else old(Metrics())
    {
      if thread in threadMetrics {
        var metrics := threadMetrics[thread];
        metrics.RecordLatency(latencyMs);
      }
    }

    /** `recordQps`: offers the sample to a tracked thread's QPS history; an
        untracked thread is ignored. */
    method RecordQps(thread: ThreadId, qps: int)
      requires Valid()
      modifies Objects()
      ensures Valid()
      ensures Metrics() == if thread in old(Metrics())
        then old(Metrics())[thread := old(Metrics())[thread].(
               qpsHistory := Offer(old(Metrics())[thread].qpsHistory, qps))]
        else old(Metrics())
    {
      if thread in threadMetrics {
        var metrics := threadMetrics[thread];
        metrics.RecordQps(qps);
      }
    }

    /** `reviewAndMigrate`: one pass over the tracked threads; `alive` is the set of
        threads that are still running. */
    method ReviewAndMigrate(alive: set<ThreadId>)
      requires Valid()
      modifies this, Objects()
      ensures Valid()
      ensures Metrics() == Reviewed(old(Metrics()), alive, workloadCpuMapping, availableCpus)
      ensures migrationCount == old(migrationCount) +
        |MovedAmong(old(Metrics()), alive, workloadCpuMapping, availableCpus, old(Metrics()).Keys)|
    {
      ghost var m0 := Metrics();
      ghost var objects0 := threadMetrics;
      ghost var count0 := migrationCount;
      var todo := threadMetrics.Keys;
      while todo != {}
        invariant PassState(m0, objects0, count0, alive, todo)
        decreases todo
      {
        var thread :| thread in todo;
        ReviewThread(thread, alive, m0, objects0, count0, todo);
        todo := todo - {thread};
      }
      assert Metrics() == Reviewed(m0, alive, workloadCpuMapping, availableCpus);
      assert m0.Keys - todo == m0.Keys;
    }

    /** The state of a review pass that started from the tracked threads `m0` (held in
        `objects0`, with `count0` moves so far) and still has `todo` to visit: the
        visited dead threads are gone, the visited live ones reviewed, and each visited
        move counted. */
    ghost predicate PassState(m0: map<ThreadId, MetricsView>, objects0: map<ThreadId, ThreadMetrics>,
                              count0: int, alive: set<ThreadId>, todo: set<ThreadId>)
      reads this, set t | t in objects0 :: objects0[t]
    {
      Valid() &&
      todo <= objects0.Keys && m0.Keys == objects0.Keys &&
      (forall t :: t in threadMetrics <==> t in objects0 && (t in todo || t in alive)) &&
      (forall t :: t in threadMetrics ==> threadMetrics[t] == objects0[t]) &&
      (forall t :: t in threadMetrics ==>
         threadMetrics[t].View() == PassView(m0, workloadCpuMapping, availableCpus, todo, t)) &&
      migrationCount == count0 +
        |MovedAmong(m0, alive, workloadCpuMapping, availableCpus, m0.Keys - todo)|
    }

    /** One iteration of `reviewAndMigrate`: a dead thread is forgotten; a live one
        that should migrate is moved to its preferred cores when they differ from its
        current ones, and the move is counted. */
    method ReviewThread(thread: ThreadId, alive: set<ThreadId>,
                        ghost m0: map<ThreadId, MetricsView>,
                        ghost objects0: map<ThreadId, ThreadMetrics>,
                        ghost count0: int, ghost todo: set<ThreadId>)
      requires thread in todo
      requires PassState(m0, objects0, count0, alive, todo)
      modifies this, threadMetrics[thread]
      ensures PassState(m0, objects0, count0, alive, todo - {thread})
    {
      var metrics := threadMetrics[thread];
      assert metrics.View() == m0[thread];
      if thread !in alive {
        ForgetThread(thread, alive, m0, objects0, count0, todo);
        return;
      }
      if ShouldMigrate(metrics.View()) {
        var newCpus := SelectOptimalCpus(metrics.workloadType);
        if newCpus != metrics.currentCpus {
          MoveThread(thread, newCpus, alive, m0, objects0, count0, todo);
          return;
        }
      }
      KeepThread(thread, alive, m0, objects0, count0, todo);
    }

    /** A dead thread's record is dropped. */
    method ForgetThread(thread: ThreadId, alive: set<ThreadId>,
                        ghost m0: map<ThreadId, MetricsView>,
                        ghost objects0: map<ThreadId, ThreadMetrics>,
                        ghost count0: int, ghost todo: set<ThreadId>)
      requires thread in todo && thread !in alive
      requires PassState(m0, objects0, count0, alive, todo)
      modifies this
      ensures PassState(m0, objects0, count0, alive, todo - {thread})
      ensures threadMetrics == old(threadMetrics) - {thread}
    {
      threadMetrics := threadMetrics - {thread};
      MovedStep(m0, alive, workloadCpuMapping, availableCpus, todo, thread);
    }

    /** A live thread that migrates gets its preferred cores, and the move is counted. */
    method MoveThread(thread: ThreadId, newCpus: set<int>, alive: set<ThreadId>,
                      ghost m0: map<ThreadId, MetricsView>,
                      ghost objects0: map<ThreadId, ThreadMetrics>,
                      ghost count0: int, ghost todo: set<ThreadId>)
      requires thread in todo && thread in alive
      requires PassState(m0, objects0, count0, alive, todo)
      requires Migrates(m0[thread], workloadCpuMapping, availableCpus)
      requires newCpus == OptimalCpus(workloadCpuMapping, availableCpus, m0[thread].workloadType)
      modifies this, threadMetrics[thread]
      ensures PassState(m0, objects0, count0, alive, todo - {thread})
      ensures migrationCount == old(migrationCount) + 1
    {
      var metrics := threadMetrics[thread];
      metrics.currentCpus := newCpus;
      migrationCount := migrationCount + 1;
      MovedStep(m0, alive, workloadCpuMapping, availableCpus, todo, thread);
    }

    /** A live thread that does not migrate is left as it is. */
    lemma KeepThread(thread: ThreadId, alive: set<ThreadId>,
                     m0: map<ThreadId, MetricsView>,
                     objects0: map<ThreadId, ThreadMetrics>,
                     count0: int, todo: set<ThreadId>)
      requires thread in todo && thread in alive
      requires PassState(m0, objects0, count0, alive, todo)
      requires !Migrates(m0[thread], workloadCpuMapping, availableCpus)
      ensures PassState(m0, objects0, count0, alive, todo - {thread})
    {
      MovedStep(m0, alive, workloadCpuMapping, availableCpus, todo, thread);
    }
  }
}

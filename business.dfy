/** Business isolation: each business service owns a pool of cores that no other
    service may hold, and threads are pinned to the pool of their service. */
module Business {
  import opened Common
  import opened Affinity

  /** The outcome of `registerBusinessPool`: registered, or refused (the source throws
      IllegalArgumentException) naming the requested cores already held by a pool. */
  datatype Registration = Registered | AlreadyAllocated(overlap: set<int>)

  /** The cores held by the pools named in `names`. */
  function Held(table: map<string, set<int>>, names: set<string>): (cpus: set<int>)
    ensures forall c :: c in cpus <==> exists n :: n in names && n in table && c in table[n]
  {
    set n, c | n in names && n in table && c in table[n] :: c
  }

  /** Adding one name adds exactly that pool's cores. */
  lemma HeldStep(table: map<string, set<int>>, names: set<string>, name: string)
    requires name in table
    ensures Held(table, names + {name}) == Held(table, names) + table[name]
  {
  }

  /** The cores held by any registered pool. */
  function Allocated(table: map<string, set<int>>): (cpus: set<int>)
    ensures forall n :: n in table ==> table[n] <= cpus
  {
    Held(table, table.Keys)
  }

  /** No core belongs to two pools. */
  predicate PairwiseDisjoint(table: map<string, set<int>>)
  {
    forall n1, n2 :: n1 in table && n2 in table && n1 != n2 ==> table[n1] * table[n2] == {}
  }

  /** The registration decision: refused with the overlap when the requested cores
      meet the cores of any registered pool (the pool being replaced included). */
  function RegisterDecision(table: map<string, set<int>>, cpus: set<int>): (r: Registration)
    ensures r == Registered <==> forall n :: n in table ==> cpus * table[n] == {}
    ensures r.AlreadyAllocated? ==>
      (r.overlap != {} &&
       forall c :: c in r.overlap <==> c in cpus && exists n :: n in table && c in table[n])
  {
    var overlap := cpus * Allocated(table);
    if overlap == {} then Registered else AlreadyAllocated(overlap)
  }

  /** A registration that goes through keeps the pools pairwise disjoint. */
  lemma RegisterKeepsDisjoint(table: map<string, set<int>>, name: string, cpus: set<int>)
    requires PairwiseDisjoint(table)
    requires RegisterDecision(table, cpus) == Registered
    ensures PairwiseDisjoint(table[name := cpus])
  {
  }

  /** Re-registering a name with any core its current pool holds is refused: the
      pool's own cores count as held. */
  lemma ReRegisterOverlapRefused(table: map<string, set<int>>, name: string, cpus: set<int>)
    requires name in table && cpus * table[name] != {}
    ensures RegisterDecision(table, cpus).AlreadyAllocated?
  {
  }

  /** An empty pool is always accepted, and pinning to it always fails. */
  lemma EmptyPoolRegistersButCannotPin(table: map<string, set<int>>, platform: Platform, kernelResult: int)
    ensures RegisterDecision(table, {}) == Registered
    ensures !PinThread({}, platform, kernelResult).success
  {
  }

  /** The pool members after `migrateThread` succeeds: the thread joins the target
      pool, then leaves the source pool. */
  function AfterMigration(members: map<string, set<ThreadId>>, thread: ThreadId,
                          from: string, to: string): (r: map<string, set<ThreadId>>)
    requires from in members && to in members
    ensures r.Keys == members.Keys
  {
    var joined := members[to := members[to] + {thread}];
    joined[from := joined[from] - {thread}]
  }

  /** Migrating between two different pools moves the thread and touches no other
      pool. */
  lemma MigrationMovesThread(members: map<string, set<ThreadId>>, thread: ThreadId,
                             from: string, to: string)
    requires from in members && to in members && from != to
    ensures var r := AfterMigration(members, thread, from, to);
      thread in r[to] && thread !in r[from] &&
      r[to] - {thread} == members[to] - {thread} &&
      r[from] == members[from] - {thread} &&
      forall n :: n in members && n != from && n != to ==> r[n] == members[n]
  {
  }

  /** Migrating a thread from a pool to itself leaves it in no pool's member set of
      that name (it is added, then removed), although the thread is recorded as
      belonging to that business. */
  lemma SelfMigrationDropsThread(members: map<string, set<ThreadId>>, thread: ThreadId, name: string)
    requires name in members
    ensures thread !in AfterMigration(members, thread, name, name)[name]
  {
  }

  /** A service's core pool and the threads pinned to it. */
  class CpuPool {
    const businessName: string
    const cpus: set<int>
    var threads: set<ThreadId>

    constructor (businessName: string, cpus: set<int>)
      ensures this.businessName == businessName && this.cpus == cpus && threads == {}
    {
      this.businessName := businessName;
      this.cpus := cpus;
      threads := {};
    }

    /** `getCpus`: a copy of the pool's cores. */
    function GetCpus(): (r: set<int>)
      ensures r == cpus
    {
      cpus
    }

    /** `getThreads`: a copy of the pinned threads. */
    function GetThreads(): (r: set<ThreadId>)
      reads this
      ensures r == threads
    {
      threads
    }

    /** `getThreadCount`: how many threads the pool holds. */
    function GetThreadCount(): (n: nat)
      reads this
      ensures n == 0 <==> GetThreads() == {}
    {
      |threads|
    }

    /** `addThread` */
    method AddThread(thread: ThreadId)
      modifies this
      ensures threads == old(threads) + {thread}
    {
      threads := threads + {thread};
    }

    /** `removeThread` */
    method RemoveThread(thread: ThreadId)
      modifies this
      ensures threads == old(threads) - {thread}
    {
      threads := threads - {thread};
    }
  }

  class BusinessIsolationManager {
    const availableCpus: set<int>
    const platform: Platform
    var businessPools: map<string, CpuPool>
    var threadToBusiness: map<ThreadId, string>

    /** The registered pools. */
    ghost function Pools(): set<CpuPool>
      reads this
    {
      set n | n in businessPools :: businessPools[n]
    }

    /** Each pool's cores, by business name. */
    ghost function CpuTable(): map<string, set<int>>
      reads this
    {
      map n | n in businessPools :: businessPools[n].cpus
    }

    /** Each pool's threads, by business name. */
    ghost function Members(): map<string, set<ThreadId>>
      reads this, Pools()
    {
      map n | n in businessPools :: businessPools[n].threads
    }

    /** Each pool is filed under its own name (so no pool is filed twice), and no
        core belongs to two pools. */
    ghost predicate Valid()
      reads this
    {
      (forall n :: n in businessPools ==> businessPools[n].businessName == n) &&
      PairwiseDisjoint(CpuTable())
    }

    /** The private constructor: the available cores are 0 .. cpuCount - 1 and no pool
        is registered. */
    constructor (cpuCount: nat, platform: Platform)
      ensures Valid()
      ensures availableCpus == CoreRange(0, cpuCount) && this.platform == platform
      ensures businessPools == map[] && threadToBusiness == map[]
    {
      var cpus := CollectRange(0, cpuCount);
      availableCpus := cpus;
      this.platform := platform;
      businessPools := map[];
      threadToBusiness := map[];
    }

    /** The union of the cores of every registered pool (the validation loop of
        `registerBusinessPool`). */
    method AllocatedCpus() returns (held: set<int>)
      ensures held == Allocated(CpuTable())
    {
      held := {};
      var todo := businessPools.Keys;
      while todo != {}
        invariant todo <= businessPools.Keys
        invariant held == Held(CpuTable(), businessPools.Keys - todo)
        decreases todo
      {
        var name :| name in todo;
        HeldStep(CpuTable(), businessPools.Keys - todo, name);
        assert businessPools.Keys - (todo - {name}) == (businessPools.Keys - todo) + {name};
        held := held + businessPools[name].GetCpus();
        todo := todo - {name};
      }
    }

    /** `registerBusinessPool`: refused when a requested core is held by any pool;
        otherwise a fresh pool with no thread is filed under the name, replacing
        any pool of that name. */
    method RegisterBusinessPool(businessName: string, cpus: set<int>) returns (r: Registration)
      requires Valid()
      modifies this
      ensures Valid()
      ensures r == RegisterDecision(old(CpuTable()), cpus)
      ensures r.AlreadyAllocated? ==> businessPools == old(businessPools)
      ensures r == Registered ==>
        CpuTable() == old(CpuTable())[businessName := cpus] &&
        businessPools.Keys == old(businessPools.Keys) + {businessName} &&
        fresh(businessPools[businessName]) && businessPools[businessName].threads == {} &&
        forall n :: n in old(businessPools) && n != businessName ==>
          businessPools[n] == old(businessPools[n])
      ensures threadToBusiness == old(threadToBusiness)
    {
      var held := AllocatedCpus();
      var intersection := cpus * held;
      if intersection != {} {
        return AlreadyAllocated(intersection);
      }
      RegisterKeepsDisjoint(CpuTable(), businessName, cpus);
      var pool := new CpuPool(businessName, cpus);
      businessPools := businessPools[businessName := pool];
      assert CpuTable() == old(CpuTable())[businessName := cpus];
      r := Registered;
    }

    /** `pinToBusiness`: false for an unknown business; otherwise pins to the pool's
        cores and, on success, records the thread's business and adds it to the pool. */
    method PinToBusiness(thread: ThreadId, businessName: string, kernelResult: int)
      returns (success: bool)
      requires Valid()
      modifies this, Pools()
      ensures Valid()
      ensures businessPools == old(businessPools)
      ensures businessName !in businessPools ==> !success
      ensures businessName in businessPools ==>
        success == PinThread(CpuTable()[businessName], platform, kernelResult).success
      ensures success ==>
        threadToBusiness == old(threadToBusiness)[thread := businessName] &&
        Members() == old(Members())[businessName := old(Members())[businessName] + {thread}]
      ensures !success ==> threadToBusiness == old(threadToBusiness) && Members() == old(Members())
    {
      if businessName !in businessPools {
        return false;
      }
      var pool := businessPools[businessName];
      var cpus := pool.GetCpus();
      success := PinThread(cpus, platform, kernelResult).success;
      if success {
        threadToBusiness := threadToBusiness[thread := businessName];
        pool.AddThread(thread);
      }
    }

    /** `getBusinessPool`: the pool filed under the name, if any. */
    function GetBusinessPool(businessName: string): (p: Option<CpuPool>)
      reads this
      ensures p.Some? <==> businessName in CpuTable()
      ensures Valid() && p.Some? ==>
        p.value.businessName == businessName && p.value.cpus == CpuTable()[businessName]
    {
      if businessName in businessPools then Some(businessPools[businessName]) else None
    }

    /** `migrateThread`: false when either business is unknown; otherwise pins the
        thread to the target pool and, on success, removes it from the source pool. */
    method MigrateThread(thread: ThreadId, fromBusiness: string, toBusiness: string,
                         kernelResult: int) returns (success: bool)
      requires Valid()
      modifies this, Pools()
      ensures Valid()
      ensures businessPools == old(businessPools)
      ensures fromBusiness !in businessPools || toBusiness !in businessPools ==>
        !success && threadToBusiness == old(threadToBusiness) && Members() == old(Members())
      ensures fromBusiness in businessPools && toBusiness in businessPools ==>
        success == PinThread(CpuTable()[toBusiness], platform, kernelResult).success
      ensures success ==>
        threadToBusiness == old(threadToBusiness)[thread := toBusiness] &&
        Members() == AfterMigration(old(Members()), thread, fromBusiness, toBusiness)
      ensures !success ==> threadToBusiness == old(threadToBusiness) && Members() == old(Members())
    {
      if fromBusiness !in businessPools || toBusiness !in businessPools {
        return false;
      }
      var fromPool := businessPools[fromBusiness];
      success := PinToBusiness(thread, toBusiness, kernelResult);
      if success {
        fromPool.RemoveThread(thread);
      }
    }

    /** `getBusinessNames`: the names under which a pool is filed. */
    function GetBusinessNames(): (names: set<string>)
      reads this
      ensures forall n :: n in names <==> GetBusinessPool(n).Some?
    {
      businessPools.Keys
    }
  }

  /** The process-wide instance slot behind `getInstance`. */
  class ManagerHolder {
    var instance: BusinessIsolationManager?

    constructor ()
      ensures instance == null
    {
      instance := null;
    }

    /** `getInstance`: the manager is created on the first call only. */
    method GetInstance(cpuCount: nat, platform: Platform) returns (m: BusinessIsolationManager)
      modifies this
      ensures old(instance) != null ==> m == old(instance)
      ensures old(instance) == null ==>
        fresh(m) && m.Valid() && m.businessPools == map[] && m.threadToBusiness == map[] &&
        m.availableCpus == CoreRange(0, cpuCount) && m.platform == platform
      ensures instance == m
    {
      if instance == null {
        instance := new BusinessIsolationManager(cpuCount, platform);
      }
      m := instance;
    }
  }
}

/** Pinned executors: an executor wraps every submitted task so that the thread that
    runs it calls pinThread with the executor's cores the first time it runs one of
    the wrapped tasks. Whose affinity mask that call changes is not modelled: the
    native call receives the process id (or, as a fallback, the Java thread id), not
    the calling thread's id. Which thread runs a task is decided by the underlying executor; here
    it is a parameter of each task (a fresh virtual thread per task, or a reused pool
    thread). */
module Virtual {
  import opened Common
  import opened Affinity

  /** The entry points through which a task reaches the executor. */
  datatype EntryPoint =
    | Execute                   // execute(Runnable)
    | SubmitCallable            // submit(Callable)
    | SubmitRunnableWithResult  // submit(Runnable, T)
    | SubmitRunnable            // submit(Runnable)
    | InvokeAll                 // invokeAll(tasks), with or without a timeout
    | InvokeAny                 // invokeAny(tasks), with or without a timeout

  /** A task: how it was handed over and which thread runs it. */
  datatype Task = Task(entry: EntryPoint, runner: ThreadId)

  /** One call of pinThread made by the wrapper: the thread that made the call, and
      whether the pin succeeded. */
  datatype PinCall = PinCall(runner: ThreadId, success: bool)

  /** Why `createPinnedExecutor` refused (it throws IllegalArgumentException). */
  datatype CreateError = NoCores | InvalidCore(core: int)

  /** Only execute and the three submit overloads wrap the task in the pinning guard;
      invokeAll and invokeAny pass the tasks to the underlying executor unwrapped. */
  predicate Guarded(e: EntryPoint)
  {
    !(e.InvokeAll? || e.InvokeAny?)
  }

  /** The flags after one task: a guarded task sets its runner's flag, whether or not
      its pin succeeded, so a failed pin is never retried by that thread. */
  function FlagAfter(pinned: set<ThreadId>, t: Task): (r: set<ThreadId>)
  {
    if Guarded(t.entry) then pinned + {t.runner} else pinned
  }

  /** The threads whose thread-local `pinned` flag is set after running `tasks`
      starting from `pinned`. */
  function PinnedAfter(pinned: set<ThreadId>, tasks: seq<Task>): (r: set<ThreadId>)
    ensures pinned <= r
    decreases |tasks|
  {
    if tasks == [] then pinned else PinnedAfter(FlagAfter(pinned, tasks[0]), tasks[1..])
  }

  /** The threads that call pinThread while running `tasks`, in order: a guarded task
      pins its runner when the runner's flag is not yet set. */
  function Pinners(pinned: set<ThreadId>, tasks: seq<Task>): (r: seq<ThreadId>)
    ensures |r| <= |tasks|
    ensures forall i :: 0 <= i < |r| ==> r[i] !in pinned
    decreases |tasks|
  {
    if tasks == [] then []
    else if Guarded(tasks[0].entry) && tasks[0].runner !in pinned
    then [tasks[0].runner] + Pinners(FlagAfter(pinned, tasks[0]), tasks[1..])
    else Pinners(FlagAfter(pinned, tasks[0]), tasks[1..])
  }

  /** The runners of a log of pin calls. */
  function Runners(calls: seq<PinCall>): (r: seq<ThreadId>)
    ensures |r| == |calls|
    ensures forall i :: 0 <= i < |calls| ==> r[i] == calls[i].runner
  {
    if calls == [] then [] else Runners(calls[..|calls| - 1]) + [calls[|calls| - 1].runner]
  }

  /** Running two batches one after the other pins what the first pins, then what the
      second pins from the flags the first left. */
  lemma {:induction false} PinnersConcat(pinned: set<ThreadId>, xs: seq<Task>, ys: seq<Task>)
    ensures Pinners(pinned, xs + ys) == Pinners(pinned, xs) + Pinners(PinnedAfter(pinned, xs), ys)
    ensures PinnedAfter(pinned, xs + ys) == PinnedAfter(PinnedAfter(pinned, xs), ys)
    decreases |xs|
  {
    if xs != [] {
      assert (xs + ys)[0] == xs[0];
      assert (xs + ys)[1..] == xs[1..] + ys;
      PinnersConcat(FlagAfter(pinned, xs[0]), xs[1..], ys);
    } else {
      assert xs + ys == ys;
    }
  }

  /** The flags set are exactly those of the runners of guarded tasks. */
  lemma {:induction false} PinnedAfterIsGuardedRunners(pinned: set<ThreadId>, tasks: seq<Task>, x: ThreadId)
    ensures x in PinnedAfter(pinned, tasks) <==>
      x in pinned || exists i :: 0 <= i < |tasks| && tasks[i].runner == x && Guarded(tasks[i].entry)
    decreases |tasks|
  {
    if tasks != [] {
      PinnedAfterIsGuardedRunners(FlagAfter(pinned, tasks[0]), tasks[1..], x);
      if exists i :: 0 <= i < |tasks| && tasks[i].runner == x && Guarded(tasks[i].entry) {
        var i :| 0 <= i < |tasks| && tasks[i].runner == x && Guarded(tasks[i].entry);
        if i > 0 {
          assert tasks[1..][i - 1] == tasks[i];
        }
      }
      if exists j :: 0 <= j < |tasks[1..]| && tasks[1..][j].runner == x && Guarded(tasks[1..][j].entry) {
        var j :| 0 <= j < |tasks[1..]| && tasks[1..][j].runner == x && Guarded(tasks[1..][j].entry);
        assert tasks[j + 1] == tasks[1..][j];
      }
    }
  }

  /** A thread calls pinThread at most once per executor, and never when its flag was
      already set: the pinning threads are distinct and were all unflagged. */
  lemma {:induction false} PinnersDistinct(pinned: set<ThreadId>, tasks: seq<Task>)
    ensures forall i :: 0 <= i < |Pinners(pinned, tasks)| ==>
      Pinners(pinned, tasks)[i] !in pinned && Pinners(pinned, tasks)[i] in PinnedAfter(pinned, tasks)
    ensures forall i, j :: 0 <= i < j < |Pinners(pinned, tasks)| ==>
      Pinners(pinned, tasks)[i] != Pinners(pinned, tasks)[j]
    decreases |tasks|
  {
    if tasks != [] {
      var next := FlagAfter(pinned, tasks[0]);
      PinnersDistinct(next, tasks[1..]);
      var rest := Pinners(next, tasks[1..]);
      assert PinnedAfter(pinned, tasks) == PinnedAfter(next, tasks[1..]);
      assert pinned <= next;
      if Guarded(tasks[0].entry) && tasks[0].runner !in pinned {
        var r := [tasks[0].runner] + rest;
        assert r == Pinners(pinned, tasks);
        assert tasks[0].runner in next;
        forall i | 0 <= i < |r|
          ensures r[i] !in pinned && r[i] in PinnedAfter(pinned, tasks)
        {
          if i > 0 {
            assert r[i] == rest[i - 1];
          }
        }
        forall i, j | 0 <= i < j < |r|
          ensures r[i] != r[j]
        {
          assert r[j] == rest[j - 1] && r[j] !in next;
          if i > 0 {
            assert r[i] == rest[i - 1];
          }
        }
      } else {
        assert rest == Pinners(pinned, tasks);
      }
    }
  }

  /** When every task is guarded and runs on its own thread that has not pinned yet
      (a fresh virtual thread per task), every task pins. */
  lemma {:induction false} OwnThreadEveryTaskPins(pinned: set<ThreadId>, tasks: seq<Task>)
    requires forall i :: 0 <= i < |tasks| ==> Guarded(tasks[i].entry) && tasks[i].runner !in pinned
    requires forall i, j :: 0 <= i < j < |tasks| ==> tasks[i].runner != tasks[j].runner
    ensures |Pinners(pinned, tasks)| == |tasks|
    decreases |tasks|
  {
    if tasks != [] {
      var rest := tasks[1..];
      forall i | 0 <= i < |rest|
        ensures Guarded(rest[i].entry) && rest[i].runner !in pinned + {tasks[0].runner}
      {
        assert rest[i] == tasks[i + 1];
      }
      forall i, j | 0 <= i < j < |rest|
        ensures rest[i].runner != rest[j].runner
      {
        assert rest[i] == tasks[i + 1] && rest[j] == tasks[j + 1];
      }
      OwnThreadEveryTaskPins(pinned + {tasks[0].runner}, rest);
    }
  }

  /** When one thread runs every task (a reused pool thread), it pins at most once. */
  lemma {:induction false} SharedThreadPinsOnce(pinned: set<ThreadId>, tasks: seq<Task>, runner: ThreadId)
    requires forall i :: 0 <= i < |tasks| ==> tasks[i].runner == runner
    ensures |Pinners(pinned, tasks)| <= 1
  {
    PinnersDistinct(pinned, tasks);
    var r := Pinners(pinned, tasks);
    if |r| > 1 {
      PinnersOnlyRunners(pinned, tasks, r[0]);
      PinnersOnlyRunners(pinned, tasks, r[1]);
      assert false;
    }
  }

  /** Conversely, the runner of a guarded task whose flag was clear at the start
      calls pinThread. */
  lemma {:induction false} UnflaggedRunnerPins(pinned: set<ThreadId>, tasks: seq<Task>, i: int)
    requires 0 <= i < |tasks| && Guarded(tasks[i].entry) && tasks[i].runner !in pinned
    ensures tasks[i].runner in Pinners(pinned, tasks)
    decreases |tasks|
  {
    var x := tasks[i].runner;
    if i > 0 && !(Guarded(tasks[0].entry) && tasks[0].runner == x) {
      var next := FlagAfter(pinned, tasks[0]);
      assert tasks[1..][i - 1] == tasks[i];
      UnflaggedRunnerPins(next, tasks[1..], i - 1);
    }
  }

  /** When one thread with a clear flag runs every task and at least one task comes
      through execute or submit, it calls pinThread exactly once. */
  lemma SharedThreadPinsExactlyOnce(pinned: set<ThreadId>, tasks: seq<Task>, runner: ThreadId, i: int)
    requires forall j :: 0 <= j < |tasks| ==> tasks[j].runner == runner
    requires runner !in pinned
    requires 0 <= i < |tasks| && Guarded(tasks[i].entry)
    ensures Pinners(pinned, tasks) == [runner]
  {
    SharedThreadPinsOnce(pinned, tasks, runner);
    UnflaggedRunnerPins(pinned, tasks, i);
  }

  /** A pinning thread is the runner of some guarded task. */
  lemma {:induction false} PinnersOnlyRunners(pinned: set<ThreadId>, tasks: seq<Task>, x: ThreadId)
    requires x in Pinners(pinned, tasks)
    ensures exists i :: 0 <= i < |tasks| && tasks[i].runner == x && Guarded(tasks[i].entry)
    decreases |tasks|
  {
    if !(Guarded(tasks[0].entry) && tasks[0].runner == x) {
      var next := FlagAfter(pinned, tasks[0]);
      assert x in Pinners(next, tasks[1..]);
      PinnersOnlyRunners(next, tasks[1..], x);
      var i :| 0 <= i < |tasks[1..]| && tasks[1..][i].runner == x && Guarded(tasks[1..][i].entry);
      assert tasks[i + 1] == tasks[1..][i];
    }
  }

  /** Tasks handed over through invokeAll or invokeAny never pin anything. */
  lemma {:induction false} UnguardedNeverPin(pinned: set<ThreadId>, tasks: seq<Task>)
    requires forall i :: 0 <= i < |tasks| ==> !Guarded(tasks[i].entry)
    ensures Pinners(pinned, tasks) == [] && PinnedAfter(pinned, tasks) == pinned
    decreases |tasks|
  {
    if tasks != [] {
      assert forall i :: 0 <= i < |tasks[1..]| ==> tasks[1..][i] == tasks[i + 1];
      UnguardedNeverPin(pinned, tasks[1..]);
    }
  }

  /** The executor wrapper of `createPinnedExecutor`. */
  class PinnedVirtualThreadExecutor {
    const cores: set<int>
    const platform: Platform
    /** The threads whose thread-local `pinned` flag is set. */
    var pinned: set<ThreadId>
    /** Every pinThread call the wrapper made, in order. */
    var pinCalls: seq<PinCall>
    /** Every task the underlying executor accepted, in order. */
    var accepted: seq<Task>
    var isShutdown: bool

    constructor (cores: set<int>, platform: Platform)
      ensures this.cores == cores && this.platform == platform
      ensures pinned == {} && pinCalls == [] && accepted == [] && !isShutdown
    {
      this.cores := cores;
      this.platform := platform;
      pinned := {};
      pinCalls := [];
      accepted := [];
      isShutdown := false;
    }

    /** The pinning threads are those the task history determines, and no other
        thread's flag is set. */
    ghost predicate Valid()
      reads this
    {
      Runners(pinCalls) == Pinners({}, accepted) && pinned == PinnedAfter({}, accepted)
    }

    /** Runs one task through an entry point: a task handed over after shutdown is
        rejected; a guarded task first pins its runner unless the runner's flag is
        set, and sets the flag whether or not the pin succeeded (`kernelResult` is
        what the kernel answers). */
    method Run(task: Task, kernelResult: int) returns (ok: bool)
      requires Valid()
      modifies this
      ensures Valid()
      ensures ok == !old(isShutdown)
      ensures !ok ==> accepted == old(accepted) && pinCalls == old(pinCalls) && pinned == old(pinned)
      ensures ok ==> accepted == old(accepted) + [task]
      ensures ok ==> (pinCalls == old(pinCalls) +
        (if Guarded(task.entry) && task.runner !in old(pinned)
         then [PinCall(task.runner, PinThread(cores, platform, kernelResult).success)]
         else []))
      ensures ok ==> pinned == FlagAfter(old(pinned), task)
      ensures isShutdown == old(isShutdown)
    {
      if isShutdown {
        return false;
      }
      if Guarded(task.entry) {
        if task.runner !in pinned {
          var success := PinThread(cores, platform, kernelResult).success;
          pinCalls := pinCalls + [PinCall(task.runner, success)];
          pinned := pinned + {task.runner};
        }
      }
      PinnersConcat({}, accepted, [task]);
      accepted := accepted + [task];
      ok := true;
    }

    /** `shutdown` and `shutdownNow`: the underlying executor stops accepting tasks. */
    method Shutdown()
      modifies this
      ensures isShutdown
      ensures pinned == old(pinned) && pinCalls == old(pinCalls) && accepted == old(accepted)
    {
      isShutdown := true;
    }

    /** `isShutdown` */
    function IsShutdown(): (r: bool)
      reads this
    {
      isShutdown
    }
  }

  class VirtualThreadPinner {
    const availableCpus: set<int>
    const platform: Platform
    var pinnedExecutors: map<int, PinnedVirtualThreadExecutor>
    var executorCounter: int

    /** Registered executors are numbered 1 .. executorCounter. */
    ghost predicate Valid()
      reads this
    {
      executorCounter >= 0 && forall id :: id in pinnedExecutors ==> 1 <= id <= executorCounter
    }

    /** The constructor: the available cores are 0 .. cpuCount - 1. */
    constructor (cpuCount: nat, platform: Platform)
      ensures Valid()
      ensures availableCpus == CoreRange(0, cpuCount) && this.platform == platform
      ensures pinnedExecutors == map[] && executorCounter == 0
    {
      var cpus := CollectRange(0, cpuCount);
      availableCpus := cpus;
      this.platform := platform;
      pinnedExecutors := map[];
      executorCounter := 0;
    }

    /** The validation loop of `createPinnedExecutor`: some requested core that is not
        available, if there is one. */
    method FindInvalidCore(cores: set<int>) returns (bad: Option<int>)
      ensures bad.None? <==> cores <= availableCpus
      ensures bad.Some? ==> bad.value in cores && bad.value !in availableCpus
    {
      var rest := cores;
      while rest != {}
        invariant rest <= cores
        invariant cores - rest <= availableCpus
        decreases rest
      {
        NonEmptyHasElement(rest);
        var core :| core in rest;
        if core !in availableCpus {
          return Some(core);
        }
        rest := rest - {core};
      }
      return None;
    }

    /** `createPinnedExecutor(Set)`: refuses an empty set and any core outside the
        available ones; otherwise files a new executor under the next number. */
    method CreatePinnedExecutor(cores: set<int>) returns (r: Result<PinnedVirtualThreadExecutor, CreateError>)
      requires Valid()
      modifies this
      ensures Valid()
      ensures cores == {} ==> r == Err(NoCores)
      ensures cores != {} && !(cores <= availableCpus) ==>
        r.Err? && r.error.InvalidCore? && r.error.core in cores && r.error.core !in availableCpus
      ensures r.Err? ==> pinnedExecutors == old(pinnedExecutors) && executorCounter == old(executorCounter)
      ensures r.Ok? <==> cores != {} && cores <= availableCpus
      ensures r.Ok? ==>
        fresh(r.value) && r.value.cores == cores && r.value.platform == platform &&
        r.value.pinned == {} && r.value.pinCalls == [] && r.value.accepted == [] &&
        !r.value.isShutdown && r.value.Valid() &&
        executorCounter == old(executorCounter) + 1 &&
        old(executorCounter) + 1 !in old(pinnedExecutors) &&
        pinnedExecutors == old(pinnedExecutors)[executorCounter := r.value]
    {
      if cores == {} {
        return Err(NoCores);
      }
      var bad := FindInvalidCore(cores);
      if bad.Some? {
        return Err(InvalidCore(bad.value));
      }
      var executor := new PinnedVirtualThreadExecutor(cores, platform);
      executorCounter := executorCounter + 1;
      pinnedExecutors := pinnedExecutors[executorCounter := executor];
      r := Ok(executor);
    }

    /** `createPinnedExecutor(int)`: the executor for the single core. */
    method CreatePinnedExecutorForCore(core: int) returns (r: Result<PinnedVirtualThreadExecutor, CreateError>)
      requires Valid()
      modifies this
      ensures Valid()
      ensures core !in availableCpus ==> r == Err(InvalidCore(core))
      ensures r.Err? ==> pinnedExecutors == old(pinnedExecutors) && executorCounter == old(executorCounter)
      ensures r.Ok? <==> core in availableCpus
      ensures r.Ok? ==>
        fresh(r.value) && r.value.cores == {core} && r.value.platform == platform &&
        r.value.pinned == {} && r.value.pinCalls == [] && r.value.accepted == [] &&
        !r.value.isShutdown && r.value.Valid() &&
        executorCounter == old(executorCounter) + 1 &&
        old(executorCounter) + 1 !in old(pinnedExecutors) &&
        pinnedExecutors == old(pinnedExecutors)[executorCounter := r.value]
    {
      r := CreatePinnedExecutor({core});
    }

    /** `shutdown`: shuts every filed executor down, then forgets them all; the
        numbering goes on from where it was. */
    method Shutdown()
      requires Valid()
      modifies this, set id | id in pinnedExecutors :: pinnedExecutors[id]
      ensures Valid()
      ensures forall id :: id in old(pinnedExecutors) ==> old(pinnedExecutors)[id].isShutdown
      ensures forall id :: id in old(pinnedExecutors) ==>
        old(pinnedExecutors)[id].pinned == old(pinnedExecutors[id].pinned) &&
        old(pinnedExecutors)[id].pinCalls == old(pinnedExecutors[id].pinCalls) &&
        old(pinnedExecutors)[id].accepted == old(pinnedExecutors[id].accepted)
      ensures forall id :: id in old(pinnedExecutors) && old(pinnedExecutors[id].Valid()) ==>
        old(pinnedExecutors)[id].Valid()
      ensures pinnedExecutors == map[] && executorCounter == old(executorCounter)
    {
      var todo := pinnedExecutors.Keys;
      while todo != {}
        invariant todo <= pinnedExecutors.Keys
        invariant pinnedExecutors == old(pinnedExecutors) && executorCounter == old(executorCounter)
        invariant forall id :: id in pinnedExecutors && id !in todo ==> pinnedExecutors[id].isShutdown
        invariant forall id :: id in pinnedExecutors ==>
          pinnedExecutors[id].pinned == old(pinnedExecutors[id].pinned) &&
          pinnedExecutors[id].pinCalls == old(pinnedExecutors[id].pinCalls) &&
          pinnedExecutors[id].accepted == old(pinnedExecutors[id].accepted)
        decreases todo
      {
        NonEmptyHasElement(todo);
        var id :| id in todo;
        pinnedExecutors[id].Shutdown();
        todo := todo - {id};
      }
      pinnedExecutors := map[];
    }
  }
}

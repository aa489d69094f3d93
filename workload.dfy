/** Workload classification used to choose cores adaptively. */
module Workload {
  /** The five workload kinds a thread can be registered with. */
  datatype WorkloadType =
    | CpuIntensive     // computation, encryption, compression
    | IoIntensive      // network, disk and database I/O
    | Mixed            // both CPU and I/O work
    | MemoryIntensive  // large data processing, caching
    | LowLatency       // latency-critical, real-time work
}

/**
 * The sequential ("Many to One") benchmark: the synthetic unit of work and the
 * loop that dispatches it directly, without threads. Timing is not modelled;
 * the benchmark's observable result here is the counter it leaves behind.
 */
module Bench {
  import opened Platform

  /** Iterations of the dummy computation inside one unit of work. */
  const DUMMY_STEPS: nat := 100

  /** The dummy computation of `do_work`: `s` counts its iterations with `wrapping_add`, which never wraps. */
  method DummyLoop() returns (s: U64)
    ensures s == DUMMY_STEPS
  {
    s := 0;
    for k := 0 to DUMMY_STEPS
      invariant s == k
    {
      s := WrappingAdd(s, 1);
    }
  }

  /** `do_work`: one increment of the shared counter, then the dummy computation. */
  method DoWork(counter: AtomicU64)
    modifies counter
    ensures counter.value == WrappingAdd(old(counter.value), 1)
  {
    var _ := counter.FetchAdd(1);
    var _ := DummyLoop();
  }

  /** The task vector of `bench_many_to_one`: `n` clones of the one counter's `Arc`. */
  method CloneTasks(counter: AtomicU64, n: nat) returns (tasks: seq<AtomicU64>)
    ensures |tasks| == n
    ensures forall i :: 0 <= i < n ==> tasks[i] == counter
  {
    tasks := [];
    for k := 0 to n
      invariant |tasks| == k
      invariant forall i :: 0 <= i < k ==> tasks[i] == counter
    {
      tasks := tasks + [counter];
    }
  }

  /**
   * `bench_many_to_one` without its timing: for every iteration, `do_work` on every
   * task, in order. All tasks share one counter, which ends at
   * `n_workers * iterations`, wrapped to 64 bits.
   */
  method BenchManyToOne(nWorkers: nat, iterations: nat) returns (count: U64)
    ensures count == Wrap(nWorkers * iterations)
  {
    var counter := new AtomicU64(0);
    var tasks := CloneTasks(counter, nWorkers);
    for it := 0 to iterations
      invariant counter.value == Wrap(it * nWorkers)
    {
      for j := 0 to |tasks|
        invariant counter.value == Wrap(it * nWorkers + j)
      {
        DoWork(tasks[j]);
        WrappingIncrementMod(it * nWorkers + j);
      }
      assert it * nWorkers + nWorkers == (it + 1) * nWorkers;
    }
    count := counter.Load();
  }
}

/**
 * The standard-library facilities the core relies on, modelled sequentially:
 * 64-bit unsigned arithmetic with wrap-around, an atomic 64-bit counter
 * (the object an `Arc<AtomicU64>` points to) and a tally of requested sleep time.
 */
module Platform {

  /** 2^64: the modulus of `u64` arithmetic. */
  const TWO_64: int := 0x1_0000_0000_0000_0000

  /** The values of a Rust `u64`. */
  type U64 = x: int | 0 <= x < TWO_64

  /** `u64::wrapping_add`, and the arithmetic of `AtomicU64::fetch_add`. */
  function WrappingAdd(a: U64, b: U64): (r: U64)
    ensures a + b < TWO_64 ==> r == a + b
    ensures a + b >= TWO_64 ==> r == a + b - TWO_64
  {
    (a + b) % TWO_64
  }

  /** The `u64` that the unbounded count `x` wraps around to. */
  function Wrap(x: nat): U64
  {
    x % TWO_64
  }

  /** Incrementing with wrap-around keeps a wrapped count in step with the unbounded one. */
  lemma WrappingIncrementMod(x: nat)
    ensures WrappingAdd(Wrap(x), 1) == Wrap(x + 1)
  {
  }

  /**
   * The shared counter. Every clone of the `Arc` is the same object, so
   * aliasing between tasks is object identity here.
   */
  class AtomicU64 {
    var value: U64

    /** `AtomicU64::new(v)` */
    constructor (v: U64)
      ensures value == v
    {
      value := v;
    }

    /** `fetch_add(delta, _)`: returns the previous value and stores the wrapped sum. */
    method FetchAdd(delta: U64) returns (prev: U64)
      modifies this
      ensures prev == old(value)
      ensures value == WrappingAdd(old(value), delta)
    {
      prev := value;
      value := WrappingAdd(value, delta);
    }

    /** `load(_)` */
    method Load() returns (v: U64)
      ensures v == value
    {
      v := value;
    }
  }

  /**
   * Total sleep time in milliseconds requested by the calling thread. A real
   * `thread::sleep` blocks for at least the requested time, possibly longer.
   */
  class Clock {
    var nowMs: nat

    constructor (start: nat)
      ensures nowMs == start
    {
      nowMs := start;
    }

    /** `thread::sleep(Duration::from_millis(ms))`, as the duration requested */
    method Sleep(ms: nat)
      modifies this
      ensures nowMs == old(nowMs) + ms
    {
      nowMs := nowMs + ms;
    }
  }
}

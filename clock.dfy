/**
 * The frame clock: a `TangramClock` whose fields count milliseconds and
 * frames in unsigned 64-bit counters. The millisecond time source is a
 * parameter of every operation that reads it.
 */
module Clock {
  import opened Tangram

  /** Unsigned 64-bit arithmetic keeps the value modulo 2^64. */
  function Wrap64(v: int): (r: u64)
    ensures 0 <= v < 0x1_0000_0000_0000_0000 ==> r as int == v
    ensures (r as int - v) % 0x1_0000_0000_0000_0000 == 0
  {
    (v % 0x1_0000_0000_0000_0000) as u64
  }

  /** The frame budget `1000 / rate` in whole milliseconds: the longest frame that fits `rate` times in a second. */
  function FrameBudget(rate: nat): (ms: nat)
    requires rate > 0
    ensures ms * rate <= 1000 < (ms + 1) * rate
  {
    1000 / rate
  }

  /** At 60 frames a second the budget is 16 ms, so a paced frame lasts slightly less than 1/60 s. */
  lemma FrameBudgetAtFps()
    ensures FrameBudget(Fps) == 16
    ensures FrameBudget(Fps) * Fps == 960
  {
  }

  /**
   * `every_n_frames(n)`: true on the frames whose counter is a multiple
   * of `n`. A zero `n` is a division by zero in C, so callers must avoid it.
   */
  function EveryNFrames(tick: u64, frames: u32): (fire: bool)
    requires frames > 0
    ensures fire <==> (tick as int / frames as int) * frames as int == tick as int
  {
    tick as int % frames as int == 0
  }

  /** After a firing frame the next `n - 1` frames are quiet and frame `n` fires again. */
  lemma EveryNFramesPeriod(tick: u64, frames: u32, k: nat)
    requires frames > 0 && EveryNFrames(tick, frames)
    requires tick as int + k < 0x1_0000_0000_0000_0000
    ensures EveryNFrames((tick as int + k) as u64, frames) <==> k % frames as int == 0
  {
    ModAdd(tick as int, k, frames as int);
  }

  /**
   * The pacing rule at the end of each main-loop iteration: a frame
   * shorter than the budget sleeps the remainder, a longer one does not
   * sleep; either way the frame plus its sleep lasts max(dt, budget).
   */
  function PacingDelay(dt: u64, desired: u64): (ms: u64)
    ensures dt as int + ms as int == Max(dt as int, desired as int)
    ensures ms > 0 <==> dt < desired
  {
    if dt < desired then desired - dt else 0
  }

  class TangramClock {
    var now: u64
    var last: u64
    var tick: u64
    var dt: u64
    var desiredDelta: u64

    /** The budget never changes after `init_clock`. */
    ghost predicate Valid()
      reads this
    {
      desiredDelta as int == FrameBudget(Fps)
    }

    /** `init_clock`: reads the time into `now` and zeroes the counters. */
    method Init(ticks: u64)
      modifies this
      ensures now == ticks && last == 0 && dt == 0 && tick == 0
      ensures desiredDelta as int == FrameBudget(Fps)
      ensures Valid()
    {
      now := ticks;
      last := 0;
      dt := 0;
      desiredDelta := (1000 / Fps) as u64;
      tick := 0;
    }

    /** `tick_start`: marks the start of the frame's update at time `ticks`. */
    method TickStart(ticks: u64)
      modifies this
      requires Valid()
      ensures last == ticks
      ensures now == old(now) && tick == old(tick) && dt == old(dt) && desiredDelta == old(desiredDelta)
      ensures Valid()
    {
      last := ticks;
    }

    /**
     * `tick_end`: at time `ticks`, records the time since `last` in `dt`,
     * moves `last` up to now and counts one more frame, all modulo 2^64.
     */
    method TickEnd(ticks: u64)
      modifies this
      requires Valid()
      ensures now == ticks && last == ticks
      ensures dt == Wrap64(ticks as int - old(last) as int)
      ensures old(last) <= ticks ==> dt as int == ticks as int - old(last) as int
      ensures tick == Wrap64(old(tick) as int + 1)
      ensures old(tick) as int + 1 < 0x1_0000_0000_0000_0000 ==> tick as int == old(tick) as int + 1
      ensures desiredDelta == old(desiredDelta)
      ensures Valid()
    {
      now := ticks;
      dt := Wrap64(now as int - last as int);
      last := now;
      tick := Wrap64(tick as int + 1);
    }

    /**
     * The clock's part in one iteration of the main loop: the update
     * starts at `start` and ends at `end`, then the loop sleeps the
     * returned number of milliseconds.
     */
    method Frame(start: u64, end: u64) returns (delay: u64)
      modifies this
      requires Valid()
      ensures now == end && last == end
      ensures dt == Wrap64(end as int - start as int)
      ensures tick == Wrap64(old(tick) as int + 1)
      ensures delay == PacingDelay(dt, desiredDelta)
      ensures start <= end ==> dt as int + delay as int == Max(end as int - start as int, FrameBudget(Fps))
      ensures Valid()
    {
      TickStart(start);
      TickEnd(end);
      delay := PacingDelay(dt, desiredDelta);
    }
  }
}

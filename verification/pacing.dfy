/**
 * The frame-pacing loop of `record_video`, with time counted in integer
 * ticks. What the device and the user do during the loop is given up front
 * as an `Environment`: iteration i's read succeeds or not, takes a positive
 * number of ticks, and a keyboard interrupt is or is not pending when the
 * iteration would begin.
 */
module Pacing {

  /** Clock resolution: one tick is a microsecond. */
  const TicksPerSecond: nat := 1_000_000

  type PositiveTicks = t: int | t > 0 witness 1

  datatype Environment = Environment(
    readOk: nat -> bool,
    readTicks: nat -> PositiveTicks,
    interrupted: nat -> bool)

  /**
   * `1.0 / fps` seconds, in ticks: rounded down for a positive rate; for a
   * negative rate the delay is not positive, so no iteration ever sleeps.
   */
  function FrameDelay(fps: int): (d: int)
    requires fps != 0
    ensures fps > 0 ==> 0 <= d && d * fps <= TicksPerSecond < (d + 1) * fps
    ensures fps < 0 ==> d <= 0
  {
    if fps > 0 then TicksPerSecond / fps else -(TicksPerSecond / -fps)
  }

  function Max(a: int, b: int): int { if a < b then b else a }

  /**
   * The pacing sleep after a frame whose read and write took `elapsed`
   * ticks: never negative, and the frame then takes the longer of the
   * delay and its own time.
   */
  function Sleep(delay: int, elapsed: nat): (t: nat)
    ensures elapsed + t == Max(delay, elapsed)
  {
    if elapsed < delay then delay - elapsed else 0
  }

  /** One loop iteration: a failed read skips the write and the sleep. */
  datatype Step = Skipped(readTicks: nat) | Written(readTicks: nat, slept: nat)

  function StepAt(env: Environment, delay: int, i: nat): Step {
    if env.readOk(i) then Written(env.readTicks(i), Sleep(delay, env.readTicks(i)))
    else Skipped(env.readTicks(i))
  }

  function StepTicks(s: Step): nat {
    match s
    case Skipped(r) => r
    case Written(r, slept) => r + slept
  }

  /** Ticks since the loop began, after the first k iterations. */
  function Elapsed(env: Environment, delay: int, k: nat): nat {
    if k == 0 then 0 else Elapsed(env, delay, k - 1) + StepTicks(StepAt(env, delay, k - 1))
  }

  /** Frames written to the video in the first k iterations. */
  function WrittenCount(env: Environment, k: nat): nat {
    if k == 0 then 0 else WrittenCount(env, k - 1) + (if env.readOk(k - 1) then 1 else 0)
  }

  /**
   * The loop ran exactly n iterations: each began before the duration was
   * up and without a pending interrupt, and after the n-th the duration is
   * up or an interrupt is pending.
   */
  ghost predicate RunLength(env: Environment, delay: int, duration: int, n: nat) {
    && (forall i: nat :: i < n ==> Elapsed(env, delay, i) < duration && !env.interrupted(i))
    && (Elapsed(env, delay, n) >= duration || env.interrupted(n))
  }

  /** Time only moves forward: a later iteration starts no earlier. */
  lemma {:induction false} ElapsedMonotone(env: Environment, delay: int, i: nat, j: nat)
    requires i <= j
    ensures Elapsed(env, delay, i) <= Elapsed(env, delay, j)
    decreases j - i
  {
    if i < j {
      ElapsedMonotone(env, delay, i, j - 1);
    }
  }

  /**
   * Since time only moves forward, it is enough that the last iteration
   * began before the duration was up.
   */
  lemma RunLengthFromLast(env: Environment, delay: int, duration: int, n: nat)
    requires n > 0 ==> Elapsed(env, delay, n - 1) < duration
    requires forall i: nat :: i < n ==> !env.interrupted(i)
    requires Elapsed(env, delay, n) >= duration || env.interrupted(n)
    ensures RunLength(env, delay, duration, n)
  {
    forall i: nat | i < n
      ensures Elapsed(env, delay, i) < duration
    {
      ElapsedMonotone(env, delay, i, n - 1);
    }
  }

  /** The number of iterations is determined by the environment and the duration. */
  lemma RunLengthUnique(env: Environment, delay: int, duration: int, n1: nat, n2: nat)
    requires RunLength(env, delay, duration, n1) && RunLength(env, delay, duration, n2)
    ensures n1 == n2
  {
  }

  /** A zero (or negative) duration stops at the first loop check. */
  lemma ZeroDurationRunsNoIteration(env: Environment, delay: int, duration: int)
    requires duration <= 0
    ensures RunLength(env, delay, duration, 0)
  {
  }

  /**
   * Pacing never overshoots the target rate: every written frame takes at
   * least one frame delay, so k iterations that wrote W frames took at
   * least W delays.
   */
  lemma {:induction false} PacingBound(env: Environment, delay: int, k: nat)
    ensures WrittenCount(env, k) * delay <= Elapsed(env, delay, k)
  {
    if k > 0 {
      PacingBound(env, delay, k - 1);
      var w := WrittenCount(env, k - 1);
      if env.readOk(k - 1) {
        assert (w + 1) * delay == w * delay + delay;
        assert StepTicks(StepAt(env, delay, k - 1)) >= delay;
      } else if delay < 0 {
        assert w * delay <= 0;
      }
    }
  }
}

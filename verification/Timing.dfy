/** When flashblocks are built: dividing the time left in the slot, and the timer that signals the builder. */
module Timing {
  import opened Prelude

  /** Times are whole milliseconds. A positive send offset means later, a negative one earlier. */
  datatype Config = Config(blockTime: nat, interval: nat, leeway: nat, fixed: bool, sendOffset: int, endBuffer: nat)

  datatype Plan = Plan(count: nat, offset: nat, deadline: nat)

  function PerBlock(c: Config): nat
    requires c.interval > 0
  {
    if c.blockTime == 0 then 0 else c.blockTime / c.interval
  }

  /** Number of flashblocks and time of the first one, for `left` milliseconds. */
  function Divide(left: nat, interval: nat): (nat, nat)
    requires interval > 0
  {
    var first := left % interval;
    if first == 0 then (left / interval, interval) else (left / interval + 1, first)
  }

  /**
    `calculate_flashblocks`: `remaining` is the time until the slot ends minus the leeway, and may be
    negative. A fixed schedule needs a leeway no longer than the interval.
   */
  function CalculateFlashblocks(c: Config, remaining: int): (nat, nat)
    requires c.interval > 0 && (c.fixed ==> c.leeway <= c.interval)
  {
    if c.fixed then (PerBlock(c), c.interval - c.leeway)
    else if remaining <= 0 then (PerBlock(c), c.interval)
    else Divide(Min(remaining, c.blockTime), c.interval)
  }

  function Shift(t: nat, delta: int): nat {
    if delta >= 0 then t + delta else SatSub(t, -delta)
  }

  function AtLeastZero(t: int): nat {
    if t < 0 then 0 else t
  }

  /** `calculate_flashblocks_timing` */
  function CalculateTiming(c: Config, remaining: int): Plan
    requires c.interval > 0
  {
    if c.fixed then Plan(PerBlock(c), Shift(c.interval, c.sendOffset), SatSub(c.blockTime, c.endBuffer))
    else if remaining <= 0 then Plan(PerBlock(c), c.interval, SatSub(c.blockTime, c.endBuffer))
    else
      var left := Min(remaining, c.blockTime);
      var (count, offset) := Divide(left, c.interval);
      Plan(count, Shift(offset, c.sendOffset), Shift(SatSub(left, c.endBuffer), c.sendOffset))
  }

  /** The flashblocks tile the time that is left: the first gets the remainder, every other a full interval. */
  lemma DivideTiles(left: nat, interval: nat)
    requires interval > 0 && left > 0
    ensures
      var (count, offset) := Divide(left, interval);
      count >= 1 && 0 < offset <= interval && offset + (count - 1) * interval == left
  {
    var q, r := left / interval, left % interval;
    assert left == q * interval + r;
    if r == 0 {
      assert q != 0;
      MulSucc(q - 1, interval);
    }
  }

  lemma FlashblocksTileTheSlot(c: Config, remaining: int)
    requires c.interval > 0 && c.blockTime > 0 && !c.fixed && remaining > 0
    ensures
      var (count, offset) := CalculateFlashblocks(c, remaining);
      && count >= 1 && 0 < offset <= c.interval
      && offset + (count - 1) * c.interval == Min(remaining, c.blockTime)
  {
    DivideTiles(Min(remaining, c.blockTime), c.interval);
  }

  /** The configured number of flashblocks is how many whole intervals go into the block time. */
  lemma PerBlockIsExact(c: Config)
    requires c.interval > 0
    ensures PerBlock(c) * c.interval <= c.blockTime < (PerBlock(c) + 1) * c.interval
  {
    var q := c.blockTime / c.interval;
    assert c.blockTime == q * c.interval + c.blockTime % c.interval;
    MulSucc(q, c.interval);
  }

  /**
    A fixed schedule, and a job that comes too late, plan the configured number of flashblocks. The first is due
    after an interval, less the leeway on a fixed schedule of the default mode, moved by the send offset on a fixed
    schedule of the other; the deadline is the block time less the buffer.
   */
  lemma ConfiguredPlans(c: Config, remaining: int)
    requires c.interval > 0 && (c.fixed || remaining <= 0) && (c.fixed ==> c.leeway <= c.interval)
    ensures
      var ((count, offset), plan) := (CalculateFlashblocks(c, remaining), CalculateTiming(c, remaining));
      && count == plan.count && count * c.interval <= c.blockTime < (count + 1) * c.interval
      && offset + (if c.fixed then c.leeway else 0) == c.interval
      && plan.offset == AtLeastZero(c.interval + if c.fixed then c.sendOffset else 0)
      && (c.endBuffer <= c.blockTime ==> plan.deadline + c.endBuffer == c.blockTime)
  {
    PerBlockIsExact(c);
  }

  /**
    A dynamic plan tiles the time that is left; its first signal and its deadline -- the end of that time less the
    buffer -- are both moved by the send offset, as far as that does not take them before the start.
   */
  lemma DynamicPlans(c: Config, remaining: int)
    requires c.interval > 0 && c.blockTime > 0 && !c.fixed && remaining > 0
    ensures
      var left, plan := Min(remaining, c.blockTime), CalculateTiming(c, remaining);
      var first := left - (plan.count - 1) * c.interval;
      && plan.count >= 1 && 0 < first <= c.interval && plan.offset == AtLeastZero(first + c.sendOffset)
      && (c.endBuffer <= left ==> plan.deadline == AtLeastZero(left - c.endBuffer + c.sendOffset))
  {
    DivideTiles(Min(remaining, c.blockTime), c.interval);
  }

  /** A job is left without any flashblock -- and then divides by zero -- exactly when it falls back to the
      configured number and the block time is shorter than one interval. */
  lemma NoFlashblocksIff(c: Config, remaining: int)
    requires c.interval > 0 && c.blockTime > 0 && (c.fixed ==> c.leeway <= c.interval)
    ensures CalculateFlashblocks(c, remaining).0 == 0 <==> (c.fixed || remaining <= 0) && c.blockTime < c.interval
    ensures CalculateTiming(c, remaining).count == 0 <==> (c.fixed || remaining <= 0) && c.blockTime < c.interval
  {
    if !c.fixed && remaining > 0 {
      DivideTiles(Min(remaining, c.blockTime), c.interval);
    }
  }

  /** A fixed schedule of 250 ms flashblocks in 200 ms blocks. */
  lemma ShortBlockHasNoFlashblocks()
    ensures CalculateFlashblocks(Config(200, 250, 50, true, 0, 0), 200) == (0, 200)
  {
  }

  /* The timer task */

  /** At `time`, the timer cancels a token (if any) and sends the builder a new one. */
  datatype Signal = Signal(time: nat, cancels: Option<nat>, sends: nat)

  /** How many ticks of the interval timer come before the deadline. */
  function Ticks(offset: nat, interval: nat, deadline: nat): nat
    requires interval > 0
  {
    if offset >= deadline then 0 else (deadline - 1 - offset) / interval + 1
  }

  lemma TicksCount(offset: nat, interval: nat, deadline: nat, k: nat)
    requires interval > 0
    ensures k < Ticks(offset, interval, deadline) <==> offset + k * interval < deadline
  {
    if offset < deadline {
      var span := deadline - 1 - offset;
      var q, r := span / interval, span % interval;
      assert span == q * interval + r;
      if k <= q {
        MulLe(k, q, interval);
      } else {
        MulLe(q + 1, k, interval);
        MulSucc(q, interval);
      }
    }
  }

  /** The signals of an undisturbed timer; token 0 is the one the job starts with. */
  function Schedule(immediate: bool, offset: nat, interval: nat, deadline: nat): seq<Signal>
    requires interval > 0
  {
    var n := Ticks(offset, interval, deadline);
    (if immediate then [Signal(0, None, 0)] else [])
    + seq(n, k requires 0 <= k < n => Signal(offset + k * interval, Some(k), k + 1))
    + [Signal(deadline, Some(n), n + 1)]
  }

  /**
    The signals: in the default mode one at once, without cancelling anything; then one at every tick before the
    deadline and one at the deadline, each cancelling the token before it and sending the next.
   */
  lemma ScheduleIsExact(immediate: bool, offset: nat, interval: nat, deadline: nat, k: nat)
    requires interval > 0
    ensures
      var (n, signals) := (Ticks(offset, interval, deadline), Schedule(immediate, offset, interval, deadline));
      var first := if immediate then 1 else 0;
      && |signals| == first + n + 1 && (immediate ==> signals[0] == Signal(0, None, 0))
      && (k < n ==>
            signals[first + k] == Signal(offset + k * interval, Some(k), k + 1) && offset + k * interval < deadline)
      && signals[first + n] == Signal(deadline, Some(n), n + 1) && deadline <= offset + n * interval
  {
    TicksCount(offset, interval, deadline, k);
    TicksCount(offset, interval, deadline, Ticks(offset, interval, deadline));
  }

  /**
    The timer loop: signal at once unless building at the end of intervals, then tick by tick replace
    the current token until the deadline.
   */
  method RunTimer(immediate: bool, offset: nat, interval: nat, deadline: nat) returns (signals: seq<Signal>)
    requires interval > 0
    ensures signals == Schedule(immediate, offset, interval, deadline)
  {
    var current := 0;
    signals := if immediate then [Signal(0, None, current)] else [];
    var now := offset;
    ghost var start := signals;
    while now < deadline
      invariant now == offset + current * interval
      invariant current <= Ticks(offset, interval, deadline)
      invariant signals == start + seq(current,
          k requires 0 <= k < current => Signal(offset + k * interval, Some(k), k + 1))
      decreases deadline - now
    {
      TicksCount(offset, interval, deadline, current);
      MulSucc(current, interval);
      signals := signals + [Signal(now, Some(current), current + 1)];
      current := current + 1;
      now := now + interval;
    }
    TicksCount(offset, interval, deadline, current);
    signals := signals + [Signal(deadline, Some(current), current + 1)];
  }

  /**
    Default mode: flashblock i is built on token i - 1, and the timer cancels that token exactly when
    the i-th tile of the slot ends.
   */
  lemma TokensAreCancelledOnTime(c: Config, remaining: int, i: nat)
    requires c.interval > 0 && c.blockTime > 0 && !c.fixed && remaining > 0
    requires 1 <= i <= CalculateFlashblocks(c, remaining).0
    ensures
      var (count, offset) := CalculateFlashblocks(c, remaining);
      var signals := Schedule(true, offset, c.interval, c.blockTime);
      && i < |signals|
      && signals[i - 1].sends == i - 1
      && signals[i].cancels == Some(i - 1)
      && signals[i].time == offset + (i - 1) * c.interval
  {
    FlashblocksTileTheSlot(c, remaining);
    var (count, offset) := CalculateFlashblocks(c, remaining);
    var n := Ticks(offset, c.interval, c.blockTime);
    TicksCount(offset, c.interval, c.blockTime, i - 1);
    MulLe(i - 1, count - 1, c.interval);
    if i - 1 >= n {
      assert offset + (i - 1) * c.interval == c.blockTime;
      if i >= 2 {
        MulSucc(i - 2, c.interval);
        TicksCount(offset, c.interval, c.blockTime, i - 2);
      }
    }
  }

  /* Building at the end of intervals */

  /**
    Whatever the plan: one signal per planned flashblock is sent if and only if the deadline falls into the last
    interval, that is after the tick before the last and not after the last one.
   */
  lemma SignalsMatchIff(offset: nat, interval: nat, deadline: nat, count: nat)
    requires interval > 0
    ensures |Schedule(false, offset, interval, deadline)| == count <==>
              && count >= 1 && deadline <= offset + (count - 1) * interval
              && (count >= 2 ==> offset + (count - 2) * interval < deadline)
  {
    if count >= 1 {
      TicksCount(offset, interval, deadline, count - 1);
    }
    if count >= 2 {
      TicksCount(offset, interval, deadline, count - 2);
    }
  }

  /** What the block time leaves over after whole intervals. */
  function Spare(c: Config): nat
    requires c.interval > 0
  {
    c.blockTime % c.interval
  }

  /** The exact condition on the configuration, in each of the three ways a plan is made. */
  predicate SignalsMatch(c: Config, remaining: int)
    requires c.interval > 0
  {
    var count := CalculateTiming(c, remaining).count;
    if c.fixed then
      && count >= 1 && Spare(c) - c.endBuffer <= c.sendOffset
      && (count == 1 || c.sendOffset < c.interval + Spare(c) - c.endBuffer)
    else if remaining <= 0 then
      count >= 1 && Spare(c) <= c.endBuffer
    else
      count == 1 || -c.sendOffset < Divide(Min(remaining, c.blockTime), c.interval).1 + c.interval - c.endBuffer
  }

  lemma FixedSignals(c: Config, remaining: int)
    requires c.interval > 0 && c.blockTime > 0 && c.fixed && c.endBuffer < c.interval
    ensures
      var plan := CalculateTiming(c, remaining);
      |Schedule(false, plan.offset, c.interval, plan.deadline)| == plan.count <==> SignalsMatch(c, remaining)
  {
    var plan := CalculateTiming(c, remaining);
    SignalsMatchIff(plan.offset, c.interval, plan.deadline, plan.count);
    assert c.blockTime == plan.count * c.interval + Spare(c);
    if plan.count >= 1 {
      MulSucc(plan.count - 1, c.interval);
    }
    if plan.count >= 2 {
      MulSucc(plan.count - 2, c.interval);
      MulLe(0, plan.count - 2, c.interval);
    }
  }

  lemma LateSignals(c: Config, remaining: int)
    requires c.interval > 0 && c.blockTime > 0 && !c.fixed && remaining <= 0 && c.endBuffer < c.interval
    ensures
      var plan := CalculateTiming(c, remaining);
      |Schedule(false, plan.offset, c.interval, plan.deadline)| == plan.count <==> SignalsMatch(c, remaining)
  {
    FixedSignals(c.(fixed := true, sendOffset := 0), remaining);
  }

  lemma DynamicSignals(c: Config, remaining: int)
    requires c.interval > 0 && c.blockTime > 0 && !c.fixed && remaining > 0 && c.endBuffer < c.interval
    ensures
      var plan := CalculateTiming(c, remaining);
      |Schedule(false, plan.offset, c.interval, plan.deadline)| == plan.count <==> SignalsMatch(c, remaining)
  {
    var left := Min(remaining, c.blockTime);
    DivideTiles(left, c.interval);
    var plan := CalculateTiming(c, remaining);
    SignalsMatchIff(plan.offset, c.interval, plan.deadline, plan.count);
    if plan.count >= 2 {
      MulSucc(plan.count - 2, c.interval);
      MulLe(0, plan.count - 2, c.interval);
    }
  }

  /**
    Building at the end of intervals, with a buffer shorter than an interval: the timer sends exactly one signal
    per planned flashblock, if and only if the signals are not moved too far -- on a fixed schedule neither
    forward past what the block time leaves over less the buffer, nor back by an interval more than that; with a
    dynamic one not forward by more than the first tile plus an interval less the buffer -- and, where the job
    came too late, the buffer covers what the block time leaves over.
   */
  lemma IntervalEndSendsOnePerFlashblock(c: Config, remaining: int)
    requires c.interval > 0 && c.blockTime > 0 && c.endBuffer < c.interval
    ensures
      var plan := CalculateTiming(c, remaining);
      |Schedule(false, plan.offset, c.interval, plan.deadline)| == plan.count <==> SignalsMatch(c, remaining)
  {
    if c.fixed {
      FixedSignals(c, remaining);
    } else if remaining <= 0 {
      LateSignals(c, remaining);
    } else {
      DynamicSignals(c, remaining);
    }
  }

  /** Signals moved forward by 500 ms: the timer sends four for five flashblocks. */
  lemma EarlySignalsAreMissing()
    ensures
      var c := Config(1_000, 200, 0, false, -500, 50);
      var plan := CalculateTiming(c, 1_000);
      plan.count == 5 && |Schedule(false, plan.offset, c.interval, plan.deadline)| == 4
  {
    assert Ticks(0, 200, 450) == 3;
  }

  /** A fixed schedule moved back by 200 ms: the deadline stays, and the timer sends three for four flashblocks. */
  lemma LateSignalsAreMissing()
    ensures
      var c := Config(1_000, 250, 0, true, 200, 50);
      var plan := CalculateTiming(c, 1_000);
      plan.count == 4 && |Schedule(false, plan.offset, c.interval, plan.deadline)| == 3
  {
    assert Ticks(450, 250, 950) == 2;
  }
}

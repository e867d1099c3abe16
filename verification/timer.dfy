/**
  The CMSDK timer driver (example-code/qemu-common/src/cmsdk_timer/mod.rs).

  `Timer` holds the timer's registers as fields: the two bitfield registers
  as raw `Word` words, the two counters as `u32` values.  Every register
  store the driver makes is appended to the ghost `writes` log, so the order
  of stores `delay_ns` makes can be stated.  The hardware's side is one
  method, `Tick`: one clock of the enabled timer, counting `value` down and,
  when it reaches zero with `interrupt_enable` set, raising the interrupt
  flag; the ghost `elapsed` counts those clocks.
*/
module CmsdkTimer {
  import opened Bits
  import TR = TimerRegisters

  const U32Max: nat := 0xFFFF_FFFF
  const U64Max: nat := 0xFFFF_FFFF_FFFF_FFFF
  type U32 = x: nat | x <= U32Max

  const EnableBit: nat := TR.ControlBit(TR.Enable)
  const InterruptEnableBit: nat := TR.ControlBit(TR.InterruptEnable)

  /** One store to a timer register. */
  datatype Write =
    | ControlWrite(raw: Word)
    | ValueWrite(ticks: U32)
    | ReloadWrite(ticks: U32)
    | InterruptWrite(raw: Word)

  class Timer {
    var control: Word
    var value: U32
    var reload: U32
    /** The interrupt flag register as a read of `Interrupt` returns it. */
    var interrupt: Word
    ghost var writes: seq<Write>
    ghost var elapsed: nat

    /** `Timer::new`: the driver over the registers as it finds them. */
    constructor(control: Word, value: U32, reload: U32, interrupt: Word)
      ensures this.control == control && this.value == value && this.reload == reload && this.interrupt == interrupt
      ensures writes == [] && elapsed == 0
    {
      this.control := control;
      this.value := value;
      this.reload := reload;
      this.interrupt := interrupt;
      writes := [];
      elapsed := 0;
    }

    /** `set_frequency`: a reload value of `sys_clk_hz / freq_hz` timer clocks. */
    method SetFrequency(sysClkHz: U32, freqHz: U32)
      requires freqHz != 0
      modifies this
      ensures reload * freqHz <= sysClkHz < (reload + 1) * freqHz
      ensures writes == old(writes) + [ReloadWrite(reload)]
      ensures control == old(control) && value == old(value) && interrupt == old(interrupt) && elapsed == old(elapsed)
    {
      WriteReload(sysClkHz / freqHz);
    }

    /** `write_reload`: the current count is not touched. */
    method WriteReload(ticks: U32)
      modifies this
      ensures reload == ticks && writes == old(writes) + [ReloadWrite(ticks)]
      ensures control == old(control) && value == old(value) && interrupt == old(interrupt) && elapsed == old(elapsed)
    {
      reload := ticks;
      writes := writes + [ReloadWrite(ticks)];
    }

    /** `write_value`: overwrite the current count. */
    method WriteValue(ticks: U32)
      modifies this
      ensures value == ticks && writes == old(writes) + [ValueWrite(ticks)]
      ensures control == old(control) && reload == old(reload) && interrupt == old(interrupt) && elapsed == old(elapsed)
    {
      value := ticks;
      writes := writes + [ValueWrite(ticks)];
    }

    /** `interrupt_fired`. */
    method InterruptFired() returns (fired: bool)
      ensures fired <==> TR.InterruptBit in interrupt
    {
      fired := Test(interrupt, TR.InterruptBit);
    }

    /** `clear_interrupt`: store an `Interrupt` with only `interrupt_bit` set, which clears the flag. */
    method ClearInterrupt()
      modifies this
      ensures !Test(interrupt, TR.InterruptBit) && interrupt - {TR.InterruptBit} == old(interrupt) - {TR.InterruptBit}
      ensures writes == old(writes) + [InterruptWrite(TR.InterruptValue(true))]
      ensures control == old(control) && value == old(value) && reload == old(reload) && elapsed == old(elapsed)
    {
      var raw := TR.InterruptValue(true);
      TR.ClearingWrite(interrupt);
      interrupt := TR.AfterInterruptWrite(interrupt, raw);
      writes := writes + [InterruptWrite(raw)];
    }

    /** Read-modify-write of `Control` setting the field at `bit` to `b`. */
    method ModifyControl(bit: nat, b: bool)
      requires bit < Width
      modifies this
      ensures control == With(old(control), bit, b)
      ensures writes == old(writes) + [ControlWrite(control)]
      ensures value == old(value) && reload == old(reload) && interrupt == old(interrupt) && elapsed == old(elapsed)
    {
      control := With(control, bit, b);
      writes := writes + [ControlWrite(control)];
    }

    /** `enable`: set `enable`, keep every other control bit. */
    method Enable()
      modifies this
      ensures control == With(old(control), EnableBit, true)
      ensures writes == old(writes) + [ControlWrite(control)]
      ensures value == old(value) && reload == old(reload) && interrupt == old(interrupt) && elapsed == old(elapsed)
    {
      ModifyControl(EnableBit, true);
    }

    /** `disable`: clear `enable`, keep every other control bit. */
    method Disable()
      modifies this
      ensures control == With(old(control), EnableBit, false)
      ensures writes == old(writes) + [ControlWrite(control)]
      ensures value == old(value) && reload == old(reload) && interrupt == old(interrupt) && elapsed == old(elapsed)
    {
      ModifyControl(EnableBit, false);
    }

    /** `enable_interrupt(enabled)`: set `interrupt_enable` to `enabled`, keep every other control bit. */
    method EnableInterrupt(enabled: bool)
      modifies this
      ensures control == With(old(control), InterruptEnableBit, enabled)
      ensures writes == old(writes) + [ControlWrite(control)]
      ensures value == old(value) && reload == old(reload) && interrupt == old(interrupt) && elapsed == old(elapsed)
    {
      ModifyControl(InterruptEnableBit, enabled);
    }

    /** `read`: the current count. */
    method Read() returns (ticks: U32)
      ensures ticks == value
    {
      ticks := value;
    }

    /**
      One clock of the enabled timer (the hardware, not the driver): the
      count goes down by one; on the clock that brings it to zero the count
      restarts from `reload` and, if `interrupt_enable` is set, the
      interrupt flag is raised.
    */
    method Tick()
      requires Test(control, EnableBit)
      modifies this
      ensures elapsed == old(elapsed) + 1
      ensures old(value) <= 1 ==> value == reload
      ensures old(value) <= 1 && Test(control, InterruptEnableBit) ==> interrupt == With(old(interrupt), TR.InterruptBit, true)
      ensures old(value) <= 1 && !Test(control, InterruptEnableBit) ==> interrupt == old(interrupt)
      ensures old(value) > 1 ==> value == old(value) - 1 && interrupt == old(interrupt)
      ensures control == old(control) && reload == old(reload) && writes == old(writes)
    {
      elapsed := elapsed + 1;
      if value <= 1 {
        value := reload;
        if Test(control, InterruptEnableBit) {
          interrupt := With(interrupt, TR.InterruptBit, true);
        }
      } else {
        value := value - 1;
      }
    }
  }

  const NsPerSecond: nat := 1_000_000_000

  /** `u64::saturating_mul`. */
  function SaturatingMul(a: nat, b: nat): (r: nat)
    ensures r <= U64Max
    ensures a * b <= U64Max ==> r == a * b
    ensures a * b > U64Max ==> r == U64Max
  {
    if a * b > U64Max then U64Max else a * b
  }

  /** The timer clocks `delay_ns(ns)` waits for: `ns * sys_clk_hz / 1_000_000_000`, saturating at `u64::MAX`. */
  function DelayTicks(ns: U32, sysClkHz: U32): nat {
    SaturatingMul(ns, sysClkHz) / NsPerSecond
  }

  /** Two `u32` operands never make the multiplication saturate: the delay is the exact quotient. */
  lemma NoSaturation(ns: U32, sysClkHz: U32)
    ensures ns * sysClkHz <= U64Max
    ensures DelayTicks(ns, sysClkHz) == ns * sysClkHz / NsPerSecond
  {
    assert ns * sysClkHz <= U32Max * sysClkHz <= U32Max * U32Max;
  }

  /** `remaining_ticks.min(u32::MAX)`: the clocks one pass of the loop waits for. */
  function ChunkTicks(remaining: nat): (w: U32)
    requires remaining > 0
    ensures 1 <= w <= remaining
    ensures w == U32Max || w == remaining
  {
    if remaining < U32Max then remaining else U32Max
  }

  /** The stores of one pass: the count, enable, disable (after the interrupt), clear. */
  function ChunkWrites(control: Word, ticks: U32): seq<Write> {
    var running := With(control, EnableBit, true);
    [ValueWrite(ticks), ControlWrite(running), ControlWrite(With(running, EnableBit, false)), InterruptWrite(TR.InterruptValue(true))]
  }

  /** The stores of the loop with `remaining` clocks still to wait, starting from `control`. */
  function LoopWrites(control: Word, remaining: nat): seq<Write>
    decreases remaining
  {
    if remaining == 0 then []
    else ChunkWrites(control, ChunkTicks(remaining)) + LoopWrites(control, remaining - ChunkTicks(remaining))
  }

  /** `control` as the loop finds it: timer stopped, its interrupt enabled. */
  function Armed(control: Word): Word {
    With(With(control, EnableBit, false), InterruptEnableBit, true)
  }

  /** Every store `delay_ns` makes, given the control word it starts from. */
  function DelayWrites(control: Word, ticks: nat): seq<Write> {
    [ControlWrite(With(control, EnableBit, false)), ControlWrite(Armed(control))]
      + LoopWrites(Armed(control), ticks)
      + [ControlWrite(With(Armed(control), InterruptEnableBit, false))]
  }

  /** The clocks lost when the interrupt flag is already raised on entry: the whole first pass. */
  function StaleLoss(staleFlag: bool, ticks: nat): nat {
    if staleFlag && ticks > 0 then ChunkTicks(ticks) else 0
  }

  /** Regrouping the log after one more pass. */
  lemma LoopWritesStep(control: Word, before: seq<Write>, remaining: nat)
    requires remaining > 0
    ensures before + LoopWrites(control, remaining)
         == (before + ChunkWrites(control, ChunkTicks(remaining))) + LoopWrites(control, remaining - ChunkTicks(remaining))
  {
  }

  lemma EnableThenDisable(control: Word)
    requires !Test(control, EnableBit)
    ensures With(With(control, EnableBit, true), EnableBit, false) == control
  {
  }

  lemma ArmedStopped(control: Word)
    ensures !Test(Armed(control), EnableBit)
    ensures Test(Armed(control), InterruptEnableBit)
  {
  }

  /** The counts stored to `value`, in order. */
  function ValueTicks(ws: seq<Write>): seq<nat> {
    if ws == [] then []
    else (if ws[0].ValueWrite? then [ws[0].ticks] else []) + ValueTicks(ws[1..])
  }

  function Sum(xs: seq<nat>): nat {
    if xs == [] then 0 else xs[0] + Sum(xs[1..])
  }

  lemma {:induction false} ValueTicksAppend(a: seq<Write>, b: seq<Write>)
    ensures ValueTicks(a + b) == ValueTicks(a) + ValueTicks(b)
    decreases |a|
  {
    if a != [] {
      assert (a + b)[0] == a[0];
      assert (a + b)[1..] == a[1..] + b;
      ValueTicksAppend(a[1..], b);
    } else {
      assert a + b == b;
    }
  }

  lemma {:induction false} SumAppend(a: seq<nat>, b: seq<nat>)
    ensures Sum(a + b) == Sum(a) + Sum(b)
    decreases |a|
  {
    if a != [] {
      assert (a + b)[0] == a[0];
      assert (a + b)[1..] == a[1..] + b;
      SumAppend(a[1..], b);
    } else {
      assert a + b == b;
    }
  }

  /**
    Each pass stores the count, then starts the timer, then (once the flag
    is up) stops it and stores the raw value 1 to `Interrupt` to clear the
    flag.  Starting and stopping touch only the `enable` bit.
  */
  lemma ChunkOrder(control: Word, ticks: U32)
    requires !Test(control, EnableBit)
    ensures |ChunkWrites(control, ticks)| == 4
    ensures ChunkWrites(control, ticks)[0] == ValueWrite(ticks)
    ensures ChunkWrites(control, ticks)[1].ControlWrite? && Test(ChunkWrites(control, ticks)[1].raw, EnableBit)
    ensures ChunkWrites(control, ticks)[1].raw - {EnableBit} == control
    ensures ChunkWrites(control, ticks)[2] == ControlWrite(control)
    ensures ChunkWrites(control, ticks)[3].InterruptWrite? && Raw(ChunkWrites(control, ticks)[3].raw) == 1
    ensures ValueTicks(ChunkWrites(control, ticks)) == [ticks]
  {
    EnableThenDisable(control);
    TR.ClearingWrite(control);
    NoValueTicks(ChunkWrites(control, ticks)[1..]);
  }

  lemma {:induction false} NoValueTicks(ws: seq<Write>)
    requires forall k :: 0 <= k < |ws| ==> !ws[k].ValueWrite?
    ensures ValueTicks(ws) == []
    decreases |ws|
  {
    if ws != [] {
      NoValueTicks(ws[1..]);
    }
  }

  /** The counts the loop stores add up to the clocks it was asked to wait. */
  lemma {:induction false} LoopTicksSum(control: Word, total: nat)
    requires !Test(control, EnableBit)
    ensures Sum(ValueTicks(LoopWrites(control, total))) == total
    decreases total
  {
    if total > 0 {
      var w := ChunkTicks(total);
      ChunkOrder(control, w);
      ValueTicksAppend(ChunkWrites(control, w), LoopWrites(control, total - w));
      LoopTicksSum(control, total - w);
      SumAppend([w], ValueTicks(LoopWrites(control, total - w)));
    }
  }

  /** Every count the loop stores is between 1 and `u32::MAX`. */
  lemma {:induction false} LoopTicksBounds(control: Word, total: nat)
    requires !Test(control, EnableBit)
    ensures forall k :: 0 <= k < |ValueTicks(LoopWrites(control, total))| ==>
      1 <= ValueTicks(LoopWrites(control, total))[k] <= U32Max
    decreases total
  {
    if total > 0 {
      var w := ChunkTicks(total);
      ChunkOrder(control, w);
      ValueTicksAppend(ChunkWrites(control, w), LoopWrites(control, total - w));
      LoopTicksBounds(control, total - w);
    }
  }

  /** The loop makes `ceil(total / u32::MAX)` passes. */
  lemma {:induction false} LoopPasses(control: Word, total: nat)
    requires !Test(control, EnableBit)
    ensures |ValueTicks(LoopWrites(control, total))| == (total + U32Max - 1) / U32Max
    decreases total
  {
    if total > 0 {
      var w := ChunkTicks(total);
      ChunkOrder(control, w);
      ValueTicksAppend(ChunkWrites(control, w), LoopWrites(control, total - w));
      LoopPasses(control, total - w);
      if total >= U32Max {
        assert (total + U32Max - 1) / U32Max == (total - 1) / U32Max + 1;
      }
    }
  }

  /**
    What `delay_ns(ns)` stores to `value`: counts between 1 and `u32::MAX`,
    `ceil(ticks / u32::MAX)` of them, adding up to
    `ticks = ns * sys_clk_hz / 10^9`.
  */
  lemma DelayValueWrites(control: Word, ns: U32, sysClkHz: U32)
    ensures var ticks := ValueTicks(DelayWrites(control, DelayTicks(ns, sysClkHz)));
      && Sum(ticks) == ns * sysClkHz / NsPerSecond
      && |ticks| == (ns * sysClkHz / NsPerSecond + U32Max - 1) / U32Max
      && forall k :: 0 <= k < |ticks| ==> 1 <= ticks[k] <= U32Max
  {
    NoSaturation(ns, sysClkHz);
    var total := DelayTicks(ns, sysClkHz);
    var armed := Armed(control);
    ArmedStopped(control);
    var prologue := [ControlWrite(With(control, EnableBit, false)), ControlWrite(armed)];
    var epilogue := [ControlWrite(With(armed, InterruptEnableBit, false))];
    ValueTicksAppend(prologue + LoopWrites(armed, total), epilogue);
    ValueTicksAppend(prologue, LoopWrites(armed, total));
    assert ValueTicks(prologue) == [] by {
      assert prologue[1..][1..] == [];
    }
    assert ValueTicks(epilogue) == [] by {
      assert epilogue[1..] == [];
    }
    assert ValueTicks(DelayWrites(control, total)) == ValueTicks(LoopWrites(armed, total));
    LoopTicksSum(armed, total);
    LoopTicksBounds(armed, total);
    LoopPasses(armed, total);
  }

  /**
    A delay shorter than one timer clock stores nothing to `value`: only the
    stop, the interrupt enable and the interrupt disable.
  */
  lemma ShortDelay(control: Word, ns: U32, sysClkHz: U32)
    ensures DelayTicks(ns, sysClkHz) == 0 <==> ns * sysClkHz < NsPerSecond
    ensures ns * sysClkHz < NsPerSecond ==>
      DelayWrites(control, DelayTicks(ns, sysClkHz))
        == [ControlWrite(With(control, EnableBit, false)), ControlWrite(Armed(control)),
            ControlWrite(With(Armed(control), InterruptEnableBit, false))]
  {
    NoSaturation(ns, sysClkHz);
  }

  /**
    `delay_ns` leaves the timer stopped with its interrupt disabled, and the
    other control bits as they were on entry.
  */
  lemma DelayEndsStopped(control: Word)
    ensures !Test(With(Armed(control), InterruptEnableBit, false), EnableBit)
    ensures !Test(With(Armed(control), InterruptEnableBit, false), InterruptEnableBit)
    ensures With(Armed(control), InterruptEnableBit, false) - {EnableBit, InterruptEnableBit}
         == control - {EnableBit, InterruptEnableBit}
  {
  }

  class DelayTimer {
    const timer: Timer
    const sysClkHz: U32

    /** `DelayTimer::new`. */
    constructor(timer: Timer, sysClkHz: U32)
      ensures this.timer == timer && this.sysClkHz == sysClkHz
    {
      this.timer := timer;
      this.sysClkHz := sysClkHz;
    }

    /**
      `while !self.timer.interrupt_fired() { spin_loop() }`: the timer runs
      one clock per pass until its flag is up.  Started with the flag down
      and `value` clocks to go, it waits exactly `value` clocks; the flag
      only comes up with `interrupt_enable` set.
    */
    method SpinUntilInterrupt()
      requires Test(timer.control, EnableBit) && Test(timer.control, InterruptEnableBit) && timer.value >= 1
      modifies timer
      ensures Test(timer.interrupt, TR.InterruptBit)
      ensures old(Test(timer.interrupt, TR.InterruptBit)) ==> timer.elapsed == old(timer.elapsed)
      ensures !old(Test(timer.interrupt, TR.InterruptBit)) ==> timer.elapsed == old(timer.elapsed) + old(timer.value)
      ensures timer.control == old(timer.control) && timer.reload == old(timer.reload) && timer.writes == old(timer.writes)
    {
      ghost var stale := Test(timer.interrupt, TR.InterruptBit);
      ghost var start := timer.elapsed + timer.value;
      var fired := timer.InterruptFired();
      while !fired
        invariant fired == Test(timer.interrupt, TR.InterruptBit)
        invariant stale ==> fired && timer.elapsed == old(timer.elapsed)
        invariant !stale && !fired ==> timer.value >= 1 && timer.elapsed + timer.value == start
        invariant !stale && fired ==> timer.elapsed == start
        invariant timer.control == old(timer.control) && timer.reload == old(timer.reload) && timer.writes == old(timer.writes)
        decreases if fired then 0 else timer.value
      {
        timer.Tick();
        fired := timer.InterruptFired();
      }
    }

    /**
      One pass of `delay_ns`'s loop: load the count, run the timer until it
      raises its flag, stop it and clear the flag.
    */
    method WaitPass(waitTicks: U32)
      requires waitTicks >= 1 && !Test(timer.control, EnableBit) && Test(timer.control, InterruptEnableBit)
      modifies timer
      ensures timer.writes == old(timer.writes) + ChunkWrites(old(timer.control), waitTicks)
      ensures timer.control == old(timer.control) && timer.reload == old(timer.reload)
      ensures timer.elapsed == old(timer.elapsed) + if old(Test(timer.interrupt, TR.InterruptBit)) then 0 else waitTicks
      ensures !Test(timer.interrupt, TR.InterruptBit)
    {
      timer.WriteValue(waitTicks);
      timer.Enable();
      WithOthers(old(timer.control), EnableBit, true, InterruptEnableBit);
      SpinUntilInterrupt();
      timer.Disable();
      timer.ClearInterrupt();
      EnableThenDisable(old(timer.control));
    }

    /**
      The loop of `delay_ns` (`while remaining_ticks > 0`), entered with the
      timer stopped and `total` clocks to wait.
    */
    method WaitPasses(total: nat)
      requires !Test(timer.control, EnableBit) && Test(timer.control, InterruptEnableBit)
      modifies timer
      ensures timer.writes == old(timer.writes) + LoopWrites(old(timer.control), total)
      ensures timer.control == old(timer.control) && timer.reload == old(timer.reload)
      ensures timer.elapsed + StaleLoss(old(Test(timer.interrupt, TR.InterruptBit)), total) == old(timer.elapsed) + total
      ensures total > 0 ==> !Test(timer.interrupt, TR.InterruptBit)
      ensures total == 0 ==> timer.interrupt == old(timer.interrupt)
    {
      var remainingTicks: nat := total;
      ghost var stale := Test(timer.interrupt, TR.InterruptBit);
      ghost var lost: nat := 0;
      while remainingTicks > 0
        invariant remainingTicks <= total
        invariant timer.control == old(timer.control) && timer.reload == old(timer.reload)
        invariant timer.writes + LoopWrites(timer.control, remainingTicks) == old(timer.writes) + LoopWrites(timer.control, total)
        invariant timer.elapsed + remainingTicks + lost == old(timer.elapsed) + total
        invariant remainingTicks == total ==> lost == 0 && timer.interrupt == old(timer.interrupt)
        invariant remainingTicks < total ==> lost == StaleLoss(stale, total) && !Test(timer.interrupt, TR.InterruptBit)
        decreases remainingTicks
      {
        var waitTicks := ChunkTicks(remainingTicks);
        ghost var before := timer.writes;
        if Test(timer.interrupt, TR.InterruptBit) {
          lost := lost + waitTicks;
        }
        WaitPass(waitTicks);
        LoopWritesStep(timer.control, before, remainingTicks);
        remainingTicks := remainingTicks - waitTicks;
      }
    }

    /**
      `delay_ns`: wait `ns * sys_clk_hz / 10^9` timer clocks, in passes of at
      most `u32::MAX` clocks, then leave the timer stopped with its interrupt
      disabled.  If the interrupt flag is already up on entry, the first
      pass ends at once: that many clocks are not waited for.
    */
    method DelayNs(ns: U32)
      modifies timer
      ensures timer.writes == old(timer.writes) + DelayWrites(old(timer.control), DelayTicks(ns, sysClkHz))
      ensures timer.control == With(Armed(old(timer.control)), InterruptEnableBit, false)
      ensures timer.reload == old(timer.reload)
      ensures timer.elapsed + StaleLoss(old(Test(timer.interrupt, TR.InterruptBit)), DelayTicks(ns, sysClkHz))
              == old(timer.elapsed) + DelayTicks(ns, sysClkHz)
      ensures DelayTicks(ns, sysClkHz) > 0 ==> !Test(timer.interrupt, TR.InterruptBit)
      ensures DelayTicks(ns, sysClkHz) == 0 ==> timer.interrupt == old(timer.interrupt)
    {
      var remainingTicks := DelayTicks(ns, sysClkHz);
      timer.Disable();
      timer.EnableInterrupt(true);
      ArmedStopped(old(timer.control));
      WaitPasses(remainingTicks);
      timer.EnableInterrupt(false);
    }

    /**
      `delay_ns` with the interrupt flag cleared before the first pass:
      every pass then waits for its whole count, and the timer runs for
      exactly `ns * sys_clk_hz / 10^9` clocks whatever the flag was on entry.
    */
    method DelayNsClearingFirst(ns: U32)
      modifies timer
      ensures timer.writes == old(timer.writes) + ClearingDelayWrites(old(timer.control), DelayTicks(ns, sysClkHz))
      ensures timer.control == With(Armed(old(timer.control)), InterruptEnableBit, false)
      ensures timer.reload == old(timer.reload)
      ensures timer.elapsed == old(timer.elapsed) + DelayTicks(ns, sysClkHz)
      ensures !Test(timer.interrupt, TR.InterruptBit)
    {
      var remainingTicks := DelayTicks(ns, sysClkHz);
      timer.Disable();
      timer.EnableInterrupt(true);
      timer.ClearInterrupt();
      ArmedStopped(old(timer.control));
      WaitPasses(remainingTicks);
      timer.EnableInterrupt(false);
    }
  }

  /** The stores of the corrected delay: as `DelayWrites`, with the flag cleared before the loop. */
  function ClearingDelayWrites(control: Word, ticks: nat): seq<Write> {
    [ControlWrite(With(control, EnableBit, false)), ControlWrite(Armed(control)), InterruptWrite(TR.InterruptValue(true))]
      + LoopWrites(Armed(control), ticks)
      + [ControlWrite(With(Armed(control), InterruptEnableBit, false))]
  }

  /**
    With the flag up on entry, any delay of at most `u32::MAX` clocks is
    lost entirely: `delay_ns` returns without the timer having run.  For
    instance a 10 ms delay on a 25 MHz clock is 250 000 clocks, all lost.
  */
  lemma StaleFlagLosesShortDelay(ticks: nat)
    requires 0 < ticks <= U32Max
    ensures StaleLoss(true, ticks) == ticks
    ensures StaleLoss(false, ticks) == 0
    ensures DelayTicks(10_000_000, 25_000_000) == 250_000 && StaleLoss(true, 250_000) == 250_000
  {
  }

  /**
    A 10 ms delay on a 25 MHz timer that was given `enable_interrupt(true)`
    and `enable()` and has since counted down once, raising its flag:
    `delay_ns` as written lets no clock pass, the corrected delay waits all
    250 000 of them.
  */
  method StaleFlagExample() returns (ghost asWritten: nat, ghost corrected: nat)
    ensures asWritten == 0 && corrected == 250_000
  {
    StaleFlagLosesShortDelay(250_000);
    var t := FiredTimer();
    ghost var start := t.elapsed;
    var d := new DelayTimer(t, 25_000_000);
    d.DelayNs(10_000_000);
    asWritten := t.elapsed - start;
    var t' := FiredTimer();
    ghost var start' := t'.elapsed;
    var d' := new DelayTimer(t', 25_000_000);
    d'.DelayNsClearingFirst(10_000_000);
    corrected := t'.elapsed - start';
  }

  /** A fresh timer loaded with one clock, interrupt enabled, started and run until its flag is up. */
  method FiredTimer() returns (t: Timer)
    ensures fresh(t)
    ensures Test(t.control, EnableBit) && Test(t.control, InterruptEnableBit)
    ensures Test(t.interrupt, TR.InterruptBit)
  {
    t := new Timer({}, 1, 0, {});
    t.EnableInterrupt(true);
    t.Enable();
    WithOthers(With({}, InterruptEnableBit, true), EnableBit, true, InterruptEnableBit);
    t.Tick();
  }
}

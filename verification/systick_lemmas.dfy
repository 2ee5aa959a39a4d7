/** Properties of the SysTick driver that relate several calls: the enable
    bit under Start and Stop, DeInit's idempotence, the callback slot as seen
    by the handler, the two reload formulas, and how Init and the busy-wait
    start leave the SysTick exception enable bit the NVIC driver also
    writes. */
module SysTickProperties {
  import opened Bits
  import opened Options
  import opened Registers
  import opened NvicDefs
  import opened Nvic
  import opened SysTick
  import opened NvicProperties

  /* ----- Start and Stop ----- */

  /** Stopping right after starting is the same as only stopping. */
  lemma StopAfterStart(t: Timer)
    requires t.regs.Valid()
    ensures Stop(Start(t)) == Stop(t)
  {
    AndNotAfterOr(t.regs, StCtrl, CtrlEnable);
  }

  /** Starting right after stopping is the same as only starting. */
  lemma StartAfterStop(t: Timer)
    requires t.regs.Valid()
    ensures Start(Stop(t)) == Start(t)
  {
    OrAfterAndNot(t.regs, StCtrl, CtrlEnable);
  }

  /** Start and Stop never touch RELOAD or CURRENT: after Init, any run of
      Start then Stop still holds Init's reload and a zero count. */
  lemma StartStopKeepReload(t: Timer, ms: Millis)
    requires t.regs.Valid() && ms <= InitMaxMillis
    ensures Stop(Start(Init(t, ms))).reload == InitReload(ms)
    ensures Stop(Start(Init(t, ms))).current == 0
    ensures !IsSet(Stop(Start(Init(t, ms))).regs.Read(StCtrl), CtrlEnable)
  {
  }

  /** Init already sets the enable bit, so a Start right after it changes
      nothing. */
  lemma StartAfterInit(t: Timer, ms: Millis)
    requires t.regs.Valid() && ms <= InitMaxMillis
    ensures Start(Init(t, ms)) == Init(t, ms)
  {
    var t1 := Init(t, ms);
    var c := t1.regs.Read(StCtrl);
    SetBitWhenSet(c, CtrlEnable);
    WriteSame(t1.regs, StCtrl);
  }

  /** Setting a bit that is already set leaves the word as it is. */
  lemma SetBitWhenSet(x: bv32, i: bv5)
    requires IsSet(x, i)
    ensures SetBit(x, i) == x
  {
  }

  /** Writing back the word a register already holds changes nothing. */
  lemma WriteSame(r: Regs, x: Reg)
    requires r.Valid() && Known(x)
    ensures r.Write(x, r.Read(x)) == r
  {
  }

  /* ----- DeInit ----- */

  /** DeInit is idempotent. */
  lemma DeInitIdempotent(t: Timer)
    requires t.regs.Valid()
    ensures DeInit(DeInit(t)) == DeInit(t)
  {
    var c := t.regs.Read(StCtrl);
    DeInitCtrlKeeps(c);
    WriteTwice(t.regs, StCtrl, c & DeInitKeptBits, (c & DeInitKeptBits) & DeInitKeptBits);
  }

  /** After DeInit the timer's state depends only on CTRL bit 3 of the state
      before: two states that agree on that bit and on everything DeInit does
      not touch end up equal. */
  lemma DeInitForgets(t: Timer, u: Timer)
    requires t.regs.Valid() && u.regs.Valid()
    requires t.regs.Read(StCtrl) & DeInitKeptBits == u.regs.Read(StCtrl) & DeInitKeptBits
    requires t.regs.Write(StCtrl, 0) == u.regs.Write(StCtrl, 0)
    requires t.slot == u.slot
    ensures DeInit(t) == DeInit(u)
  {
    var a, b := t.regs.Read(StCtrl) & DeInitKeptBits, u.regs.Read(StCtrl) & DeInitKeptBits;
    WriteTwice(t.regs, StCtrl, 0, a);
    WriteTwice(u.regs, StCtrl, 0, b);
  }

  /* ----- Callback slot and handler ----- */

  /** Of two SetCallBack calls, the last one wins. */
  lemma SetCallBackLastWins(t: Timer, f: Option<Callback>, g: Option<Callback>)
    ensures SetCallBack(SetCallBack(t, f), g) == SetCallBack(t, g)
  {
  }

  /** After SetCallBack with a function, the handler invokes exactly that
      function, once; after SetCallBack with NULL it invokes nothing. */
  lemma HandlerInvokesSlot(t: Timer, f: Option<Callback>)
    ensures Handler(SetCallBack(t, f)).1 == (if f.Some? then [f.value] else [])
  {
  }

  /** Before any SetCallBack the slot is NULL, so the handler invokes
      nothing. */
  lemma HandlerAtBoot(regs: Regs, reload: Uint32, current: Uint32)
    ensures Handler(Boot(regs, reload, current)).1 == []
  {
  }

  /** Running the handler `n` times with no SetCallBack in between invokes
      the slot's callbacks `n` times over: the handler itself never writes
      the slot. */
  lemma {:induction false} HandlerRepeated(t: Timer, n: nat)
    ensures HandlerRuns(t, n) == Repeat(Handler(t).1, n)
  {
    if n > 0 {
      HandlerRepeated(t, n - 1);
    }
  }

  /** The callbacks invoked by `n` successive runs of the handler. */
  function HandlerRuns(t: Timer, n: nat): seq<Callback>
  {
    if n == 0 then [] else
      var (t', fired) := Handler(t);
      fired + HandlerRuns(t', n - 1)
  }

  /** `s` repeated `n` times. */
  function Repeat(s: seq<Callback>, n: nat): seq<Callback>
  {
    if n == 0 then [] else s + Repeat(s, n - 1)
  }

  /** What happens to the slot between two handler runs: nothing (`None`),
      or a SetCallBack call with the given function, made by the main line or
      by the callback itself, since SetCallBack is reentrant. */
  type SlotUpdate = Option<Option<Callback>>

  /** The slot after an update: the stored function, or the old slot when
      there was no call. */
  function UpdateSlot(s: Option<Callback>, u: SlotUpdate): Option<Callback>
  {
    match u
    case Some(f) => f
    case None => s
  }

  /** The timer after a slot update: only the slot can change. */
  function Apply(t: Timer, u: SlotUpdate): (t': Timer)
    ensures t'.slot == UpdateSlot(t.slot, u)
    ensures t'.regs == t.regs && t'.reload == t.reload && t'.current == t.current
  {
    match u
    case Some(f) => SetCallBack(t, f)
    case None => t
  }

  /** The callbacks invoked by successive handler runs, run `k` being
      followed by update `us[k]`: one list per run. */
  function HandlerLog(t: Timer, us: seq<SlotUpdate>): (log: seq<seq<Callback>>)
    ensures |log| == |us|
    decreases |us|
  {
    if |us| == 0 then [] else
      var (t', fired) := Handler(t);
      [fired] + HandlerLog(Apply(t', us[0]), us[1..])
  }

  /** The slot after the first `k` updates, starting from `s`: the last
      SetCallBack among them wins. */
  function SlotAfter(s: Option<Callback>, us: seq<SlotUpdate>, k: nat): Option<Callback>
    requires k <= |us|
  {
    if k == 0 then s
    else UpdateSlot(SlotAfter(s, us, k - 1), us[k - 1])
  }

  /** The callbacks a handler run invokes when the slot holds `s`. */
  function Invoked(s: Option<Callback>): seq<Callback>
  {
    if s.Some? then [s.value] else []
  }

  /** Each handler run invokes exactly the callback the slot holds at that
      run: the one the last SetCallBack before it stored, or the initial
      one if there was none. */
  lemma {:induction false} HandlerLogInvokesCurrentSlot(t: Timer, us: seq<SlotUpdate>, k: nat)
    requires k < |us|
    ensures HandlerLog(t, us)[k] == Invoked(SlotAfter(t.slot, us, k))
    decreases k
  {
    if k > 0 {
      var t1 := Apply(t, us[0]);
      HandlerLogInvokesCurrentSlot(t1, us[1..], k - 1);
      SlotAfterShift(t.slot, us, k);
    }
  }

  /** Applying the first update, then the next `k - 1`, gives the slot after
      the first `k`. */
  lemma {:induction false} SlotAfterShift(s: Option<Callback>, us: seq<SlotUpdate>, k: nat)
    requires 1 <= k <= |us|
    ensures SlotAfter(UpdateSlot(s, us[0]), us[1..], k - 1) == SlotAfter(s, us, k)
  {
    if k > 1 {
      assert us[1..][k - 2] == us[k - 1];
      SlotAfterShift(s, us, k - 1);
    }
  }

  /* ----- Reload formulas ----- */

  /** Init's product `(ms - 1) * tick_per_sec` is a non-negative C `int`
      exactly for periods 1..135; for 0 it is negative and from 136 up it
      overflows. */
  lemma InitProductInRange(ms: Millis)
    ensures 0 <= (ms - 1) * TickPerSec <= IntMax <==> 1 <= ms <= InitMaxMillis
  {
  }

  /** The busy-wait product `ms * 15999` fits a C `int` for every `uint16`
      period. */
  lemma BusyWaitProductInRange(ms: Millis)
    ensures 0 <= ms * BusyWaitTicksPerMs <= IntMax
  {
  }

  /** The two formulas disagree: for 1 ms, 0 against 15999 ticks; for 10 ms,
      143999 against 159990; and Init's period 0 wraps to a huge reload. */
  lemma ReloadExamples()
    ensures InitReload(1) == 0 && BusyWaitReload(1) == 15999
    ensures InitReload(10) == 143999 && BusyWaitReload(10) == 159990
    ensures InitReload(0) == 0xFFFF_C181
  {
  }

  /** For every period Init accepts from 1 up, Init's reload is strictly
      below the busy-wait reload for the same period. */
  lemma InitReloadBelowBusyWait(ms: Millis)
    requires 1 <= ms <= InitMaxMillis
    ensures InitReload(ms) < BusyWaitReload(ms)
  {
    var p := (ms - 1) * TickPerSec;
    assert InitReload(ms) * 1000 <= p;
    assert p < ms * BusyWaitTicksPerMs * 1000;
  }

  /** Init's reload grows with the period. */
  lemma InitReloadMonotonic(a: Millis, b: Millis)
    requires 1 <= a <= b <= InitMaxMillis
    ensures InitReload(a) <= InitReload(b)
  {
    var p, q := (a - 1) * TickPerSec, (b - 1) * TickPerSec;
    assert p <= q;
    assert InitReload(a) * 1000 <= p < InitReload(a) * 1000 + 1000;
    assert InitReload(b) * 1000 <= q < InitReload(b) * 1000 + 1000;
  }

  /* ----- The SysTick exception enable bit ----- */

  /** Init leaves the SysTick exception enabled, in the sense of the NVIC
      driver's enable bit for it (CTRL bit 1). */
  lemma InitEnablesSysTickException(t: Timer, ms: Millis)
    requires t.regs.Valid() && ms <= InitMaxMillis
    ensures IsExceptionEnabled(Init(t, ms).regs, ExceptionKind.SysTick)
  {
  }

  /** The busy-wait start leaves the SysTick exception disabled. */
  lemma BusyWaitDisablesSysTickException(t: Timer, ms: Millis)
    requires t.regs.Valid()
    ensures !IsExceptionEnabled(BusyWaitSetup(t, ms).regs, ExceptionKind.SysTick)
  {
  }

  /** NVIC_DisableException(SYSTICK) after Init clears exactly the interrupt
      bit Init set: the timer still runs on the system clock. */
  lemma DisableSysTickAfterInit(t: Timer, ms: Millis)
    requires t.regs.Valid() && ms <= InitMaxMillis
    ensures var r := DisableException(Init(t, ms).regs, ExceptionKind.SysTick);
            && !IsSet(r.Read(StCtrl), CtrlInterrupt)
            && IsSet(r.Read(StCtrl), CtrlEnable)
            && IsSet(r.Read(StCtrl), CtrlClockSource)
  {
    var c := Init(t, ms).regs.Read(StCtrl);
    DisableExceptionIsAndNotBit(Init(t, ms).regs, ExceptionKind.SysTick);
    ClearBitKeepsOthers(c, CtrlInterrupt, CtrlEnable);
    ClearBitKeepsOthers(c, CtrlInterrupt, CtrlClockSource);
  }
}

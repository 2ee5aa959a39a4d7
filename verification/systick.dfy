/** The SysTick timer driver: Init, Start, Stop, DeInit, the busy-wait
    start, and the single callback slot that the SysTick handler consults.

    The driver state is the register file (of which it touches CTRL and the
    two global masks Init clears), the RELOAD and CURRENT registers, and the
    callback slot. RELOAD and CURRENT are only ever assigned a whole number,
    which C converts to the unsigned 32-bit register by taking it modulo
    2^32, so they are kept as numbers below 2^32. A callback is represented
    by an identity only: the handler reports which callbacks it invoked
    instead of running them.
 */
module SysTick {
  import opened Bits
  import opened Options
  import opened Registers

  /** Ticks per second of the system clock used by Init's reload formula. */
  const TickPerSec: int := 15999999

  /** Ticks per millisecond used by the busy-wait reload formula. */
  const BusyWaitTicksPerMs: int := 15999

  /** The largest value of a C `int` (32-bit two's complement). */
  const IntMax: int := 0x7FFF_FFFF

  /** The largest period Init accepts: beyond it `(ms - 1) * tick_per_sec`
      overflows a 32-bit `int`. */
  const InitMaxMillis: nat := 135

  /* CTRL bits the driver names. */
  const CtrlEnable: bv5 := 0       // counter enable
  const CtrlInterrupt: bv5 := 1    // SysTick exception request on wrap
  const CtrlClockSource: bv5 := 2  // system clock as source
  const CtrlCountFlag: bv5 := 16   // counted to 0 since last read

  /** The three low CTRL bits Init clears and then sets (`0x7`). */
  const InitBits: bv32 := 0x7

  /** The only CTRL bit DeInit keeps (`0x8`). */
  const DeInitKeptBits: bv32 := 0x8

  /** The CTRL bits the busy-wait start sets: enable and clock source. */
  const BusyWaitSetBits: bv32 := 0x5

  /** A value of a 32-bit unsigned register. */
  type Uint32 = n: nat | n < 0x1_0000_0000

  /** A period in milliseconds: the drivers take it as a `uint16`. */
  type Millis = n: nat | n <= 0xFFFF

  /** The identity of a callback function. */
  datatype Callback = Callback(id: nat)

  /** The driver's state: the register file, RELOAD, CURRENT and the
      callback slot (NULL is `None`). */
  datatype Timer = Timer(regs: Regs, reload: Uint32, current: Uint32, slot: Option<Callback>)

  /** The state at program start: the slot is statically NULL. */
  function Boot(regs: Regs, reload: Uint32, current: Uint32): (t: Timer)
    ensures t.slot == None
    ensures t.regs == regs && t.reload == reload && t.current == current
  {
    Timer(regs, reload, current, None)
  }

  /* ----- C arithmetic ----- */

  /** C's `/` on `int`: the quotient is truncated toward zero. */
  function CDiv(a: int, b: int): (q: int)
    requires b > 0
    ensures a >= 0 ==> 0 <= q && q * b <= a < q * b + b
    ensures a < 0 ==> q <= 0 && q * b >= a > q * b - b
  {
    if a >= 0 then a / b else -((-a) / b)
  }

  /** Assigning an `int` to a 32-bit unsigned register: the value is taken
      modulo 2^32. */
  function ToUint32(n: int): (w: Uint32)
    ensures 0 <= n < 0x1_0000_0000 ==> w == n
    ensures -0x1_0000_0000 <= n < 0 ==> w == n + 0x1_0000_0000
  {
    n % 0x1_0000_0000
  }

  /* ----- Reload formulas ----- */

  /** Init's reload, `((ms - 1) * tick_per_sec) / 1000` evaluated in C:
      `ms` is promoted to `int`, so `ms - 1` is -1 for ms = 0, and the
      quotient is stored into the unsigned register. */
  function InitReload(ms: Millis): (v: Uint32)
    requires ms <= InitMaxMillis
    ensures ms >= 1 ==> v == (ms - 1) * TickPerSec / 1000
    ensures ms == 0 ==> v == 0x1_0000_0000 - 15999
  {
    ToUint32(CDiv((ms - 1) * TickPerSec, 1000))
  }

  /** The busy-wait reload, `ms * 15999` evaluated in C `int` and stored. */
  function BusyWaitReload(ms: Millis): (v: Uint32)
    ensures v == ms * BusyWaitTicksPerMs
  {
    ToUint32(ms * BusyWaitTicksPerMs)
  }

  /* ----- Driver operations ----- */

  /** SysTick_Init: clear the global masks, clear CTRL's three low bits,
      zero CURRENT, load RELOAD, then set CTRL's three low bits. Afterwards
      the timer runs with its interrupt enabled on the system clock, every
      other CTRL bit is as before, and no other register or the slot moved. */
  function Init(t: Timer, ms: Millis): (t': Timer)
    requires t.regs.Valid() && ms <= InitMaxMillis
    ensures t'.regs.Valid()
    ensures t'.regs.Read(StCtrl) & InitBits == InitBits
    ensures IsSet(t'.regs.Read(StCtrl), CtrlEnable)
    ensures IsSet(t'.regs.Read(StCtrl), CtrlInterrupt)
    ensures IsSet(t'.regs.Read(StCtrl), CtrlClockSource)
    ensures Outside(t'.regs.Read(StCtrl), InitBits) == Outside(t.regs.Read(StCtrl), InitBits)
    ensures t'.current == 0 && t'.reload == InitReload(ms)
    ensures SameExcept(t.regs, t'.regs, {StCtrl})
    ensures t'.regs.irqUnmasked && t'.regs.faultsUnmasked
    ensures t'.slot == t.slot
  {
    var r0 := t.regs.(irqUnmasked := true, faultsUnmasked := true);
    assert r0.Valid() && SameExcept(t.regs, r0, {});
    var r1 := r0.Write(StCtrl, r0.Read(StCtrl) & !InitBits);
    var t1 := t.(regs := r1, current := 0, reload := InitReload(ms));
    var c := r1.Read(StCtrl) | InitBits;
    InitCtrlSets(t.regs.Read(StCtrl));
    InitCtrlKeeps(t.regs.Read(StCtrl));
    InitBitsSet(c);
    t1.(regs := r1.Write(StCtrl, c))
  }

  /** SysTick_Start: set CTRL's enable bit; nothing else moves. */
  function Start(t: Timer): (t': Timer)
    requires t.regs.Valid()
    ensures t'.regs.Valid()
    ensures IsSet(t'.regs.Read(StCtrl), CtrlEnable)
    ensures ChangesOnly(t.regs, t'.regs, StCtrl, Bit(CtrlEnable)) && SameMasks(t.regs, t'.regs)
    ensures t'.reload == t.reload && t'.current == t.current && t'.slot == t.slot
  {
    t.(regs := OrBit(t.regs, StCtrl, CtrlEnable))
  }

  /** SysTick_Stop: clear CTRL's enable bit; nothing else moves. */
  function Stop(t: Timer): (t': Timer)
    requires t.regs.Valid()
    ensures t'.regs.Valid()
    ensures !IsSet(t'.regs.Read(StCtrl), CtrlEnable)
    ensures ChangesOnly(t.regs, t'.regs, StCtrl, Bit(CtrlEnable)) && SameMasks(t.regs, t'.regs)
    ensures t'.reload == t.reload && t'.current == t.current && t'.slot == t.slot
  {
    t.(regs := AndNotBit(t.regs, StCtrl, CtrlEnable))
  }

  /** SysTick_DeInit: keep only CTRL bit 3, zero RELOAD and CURRENT. */
  function DeInit(t: Timer): (t': Timer)
    requires t.regs.Valid()
    ensures t'.regs.Valid()
    ensures Outside(t'.regs.Read(StCtrl), DeInitKeptBits) == 0
    ensures t'.regs.Read(StCtrl) & DeInitKeptBits == t.regs.Read(StCtrl) & DeInitKeptBits
    ensures t'.reload == 0 && t'.current == 0
    ensures SameExcept(t.regs, t'.regs, {StCtrl}) && SameMasks(t.regs, t'.regs)
    ensures t'.slot == t.slot
  {
    var c := t.regs.Read(StCtrl);
    DeInitCtrlClears(c);
    DeInitCtrlKeeps(c);
    t.(regs := t.regs.Write(StCtrl, c & DeInitKeptBits), reload := 0, current := 0)
  }

  /** SysTick_SetCallBack: store `f` (None for NULL) in the slot. */
  function SetCallBack(t: Timer, f: Option<Callback>): (t': Timer)
    ensures t'.slot == f
    ensures t'.regs == t.regs && t'.reload == t.reload && t'.current == t.current
  {
    t.(slot := f)
  }

  /** SysTick_Handler: invoke the slot's callback if it is not NULL. The
      result lists the callbacks invoked, in order; the state is returned
      unchanged. */
  function Handler(t: Timer): (res: (Timer, seq<Callback>))
    ensures res.0 == t
    ensures |res.1| <= 1
    ensures |res.1| == 1 <==> t.slot.Some?
    ensures forall k :: 0 <= k < |res.1| ==> t.slot == Some(res.1[k])
  {
    match t.slot
    case Some(f) => (t, [f])
    case None => (t, [])
  }

  /** The register writes of SysTick_StartBusyWait before its loop: clear the
      interrupt bit, set enable and clock source, load RELOAD with
      `ms * 15999`, zero CURRENT. */
  function BusyWaitSetup(t: Timer, ms: Millis): (t': Timer)
    requires t.regs.Valid()
    ensures t'.regs.Valid()
    ensures IsSet(t'.regs.Read(StCtrl), CtrlEnable)
    ensures !IsSet(t'.regs.Read(StCtrl), CtrlInterrupt)
    ensures IsSet(t'.regs.Read(StCtrl), CtrlClockSource)
    ensures Outside(t'.regs.Read(StCtrl), InitBits) == Outside(t.regs.Read(StCtrl), InitBits)
    ensures t'.reload == BusyWaitReload(ms) && t'.current == 0
    ensures SameExcept(t.regs, t'.regs, {StCtrl}) && SameMasks(t.regs, t'.regs)
    ensures t'.slot == t.slot
  {
    var c := t.regs.Read(StCtrl);
    BusyWaitCtrlEnable(c);
    BusyWaitCtrlInterrupt(c);
    BusyWaitCtrlClock(c);
    BusyWaitCtrlKeeps(c);
    var r1 := t.regs.Write(StCtrl, c & !Bit(CtrlInterrupt));
    var r2 := r1.Write(StCtrl, r1.Read(StCtrl) | BusyWaitSetBits);
    t.(regs := r2, reload := BusyWaitReload(ms), current := 0)
  }

  /** Whether a CTRL value has COUNTFLAG (bit 16) set. */
  predicate Counted(ctrl: bv32)
  {
    IsSet(ctrl, CtrlCountFlag)
  }

  /** The busy-wait loop `while (!(CTRL & (1 << 16)));` run against the
      successive values the hardware returns for CTRL (`ctrlReads`). These
      reads are an input from the hardware, unrelated to the word the
      register file stores for CTRL: the driver never stores bit 16, so the
      loop can only end on a value the timer itself supplies. It
      reports how many reads it made and whether it left the loop: it leaves
      right after the first read with COUNTFLAG set, and spins through the
      whole sequence when no read has it. */
  method Spin(ctrlReads: seq<bv32>) returns (polls: nat, exited: bool)
    ensures polls <= |ctrlReads|
    ensures exited ==> 1 <= polls && Counted(ctrlReads[polls - 1])
    ensures !exited ==> polls == |ctrlReads|
    ensures forall k :: 0 <= k < polls && !(exited && k == polls - 1) ==> !Counted(ctrlReads[k])
    ensures exited ==> FirstCountFlag(ctrlReads) == Some(polls - 1)
    ensures !exited ==> FirstCountFlag(ctrlReads) == None
  {
    polls := 0;
    exited := false;
    while polls < |ctrlReads| && !exited
      invariant polls <= |ctrlReads|
      invariant exited ==> 1 <= polls && Counted(ctrlReads[polls - 1])
      invariant forall k :: 0 <= k < polls && !(exited && k == polls - 1) ==> !Counted(ctrlReads[k])
      decreases |ctrlReads| - polls, if exited then 0 else 1
    {
      var ctrl := ctrlReads[polls];
      polls := polls + 1;
      exited := Counted(ctrl);
    }
    FirstCountFlagFinds(ctrlReads);
    if exited {
      var i := FirstCountFlag(ctrlReads).value;
      assert !(i < polls - 1);
    }
  }

  /** The whole of SysTick_StartBusyWait: the setup, then the loop over the
      CTRL values the hardware returns. The returned state is the setup's;
      the stored CTRL word is not tied to those reads. */
  method StartBusyWait(t: Timer, ms: Millis, ctrlReads: seq<bv32>) returns (t': Timer, polls: nat, exited: bool)
    requires t.regs.Valid()
    ensures t' == BusyWaitSetup(t, ms)
    ensures exited <==> exists k :: 0 <= k < |ctrlReads| && Counted(ctrlReads[k])
    ensures exited ==> 1 <= polls <= |ctrlReads| && Counted(ctrlReads[polls - 1])
    ensures exited ==> FirstCountFlag(ctrlReads) == Some(polls - 1)
    ensures !exited ==> polls == |ctrlReads|
  {
    t' := BusyWaitSetup(t, ms);
    polls, exited := Spin(ctrlReads);
    FirstCountFlagFinds(ctrlReads);
  }

  /** The index of the first read with COUNTFLAG set, if any. */
  function FirstCountFlag(ctrlReads: seq<bv32>): Option<nat>
  {
    if |ctrlReads| == 0 then None
    else if Counted(ctrlReads[0]) then Some(0)
    else OffsetFlag(FirstCountFlag(ctrlReads[1..]), 1)
  }

  /** Shift an index found in a suffix back to the whole sequence. */
  function OffsetFlag(k: Option<nat>, d: nat): Option<nat>
  {
    match k
    case Some(i) => Some(i + d)
    case None => None
  }

  /** FirstCountFlag finds a read with COUNTFLAG set exactly when there is
      one, and it is the earliest. */
  lemma {:induction false} FirstCountFlagFinds(ctrlReads: seq<bv32>)
    ensures FirstCountFlag(ctrlReads).Some? <==> exists k :: 0 <= k < |ctrlReads| && Counted(ctrlReads[k])
    ensures FirstCountFlag(ctrlReads).Some? ==>
              var i := FirstCountFlag(ctrlReads).value;
              i < |ctrlReads| && Counted(ctrlReads[i])
              && forall k :: 0 <= k < i ==> !Counted(ctrlReads[k])
  {
    if |ctrlReads| > 0 && !Counted(ctrlReads[0]) {
      var rest := ctrlReads[1..];
      FirstCountFlagFinds(rest);
      if exists k :: 0 <= k < |ctrlReads| && Counted(ctrlReads[k]) {
        var k :| 0 <= k < |ctrlReads| && Counted(ctrlReads[k]);
        assert rest[k - 1] == ctrlReads[k];
      }
      if FirstCountFlag(rest).Some? {
        var i := FirstCountFlag(rest).value;
        assert ctrlReads[i + 1] == rest[i];
        forall k | 0 <= k < i + 1
          ensures !Counted(ctrlReads[k])
        {
          if k > 0 {
            assert ctrlReads[k] == rest[k - 1];
          }
        }
      }
    }
  }

  /* ----- Word lemmas for the CTRL updates, one fact each ----- */

  lemma InitCtrlSets(c: bv32)
    ensures ((c & !InitBits) | InitBits) & InitBits == InitBits
  {
  }

  /** A CTRL value with its three low bits set has the enable, interrupt
      and clock source bits set. */
  lemma InitBitsSet(c: bv32)
    requires c & InitBits == InitBits
    ensures IsSet(c, CtrlEnable)
    ensures IsSet(c, CtrlInterrupt)
    ensures IsSet(c, CtrlClockSource)
  {
  }

  lemma InitCtrlKeeps(c: bv32)
    ensures Outside((c & !InitBits) | InitBits, InitBits) == Outside(c, InitBits)
  {
  }

  lemma DeInitCtrlClears(c: bv32)
    ensures Outside(c & DeInitKeptBits, DeInitKeptBits) == 0
  {
  }

  lemma DeInitCtrlKeeps(c: bv32)
    ensures (c & DeInitKeptBits) & DeInitKeptBits == c & DeInitKeptBits
  {
  }

  lemma BusyWaitCtrlEnable(c: bv32)
    ensures IsSet((c & !Bit(CtrlInterrupt)) | BusyWaitSetBits, CtrlEnable)
  {
  }

  lemma BusyWaitCtrlInterrupt(c: bv32)
    ensures !IsSet((c & !Bit(CtrlInterrupt)) | BusyWaitSetBits, CtrlInterrupt)
  {
  }

  lemma BusyWaitCtrlClock(c: bv32)
    ensures IsSet((c & !Bit(CtrlInterrupt)) | BusyWaitSetBits, CtrlClockSource)
  {
  }

  lemma BusyWaitCtrlKeeps(c: bv32)
    ensures Outside((c & !Bit(CtrlInterrupt)) | BusyWaitSetBits, InitBits) == Outside(c, InitBits)
  {
  }
}

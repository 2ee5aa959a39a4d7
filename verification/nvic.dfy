/** The NVIC driver's six services as transformers of the register file.

    Each function follows the driver's branches literally (the cascaded range
    tests on the IRQ number, the switch on the exception kind) and its contract
    states the effect in terms of the architectural layout: bank `irq / 32`
    and bit `irq % 32` for enables, register `irq / 4` and the field at
    `8 * (irq % 4) + 5` for priorities, and a fixed table for exceptions.
 */
module Nvic {
  import opened Bits
  import opened Options
  import opened Registers
  import opened NvicDefs

  /** Number of IRQs the enable/disable cascades cover (five banks of 32). */
  const CoveredIrqs: nat := 160

  /** The enable or disable bank that holds an IRQ's bit. */
  function Bank(irq: nat): nat
  {
    irq / 32
  }

  /** The bit of its bank that stands for an IRQ. */
  function BankBit(irq: nat): bv5
  {
    ToIndex(irq % 32)
  }

  /** Whether the set-enable bank bit of `irq` reads 1 (plain storage). */
  ghost predicate IsLineEnabled(r: Regs, irq: nat)
    requires r.Valid()
  {
    irq < CoveredIrqs && IsSet(r.Read(En(Bank(irq))), BankBit(irq))
  }

  /** Whether the clear-enable bank bit of `irq` reads 1 (plain storage). */
  ghost predicate IsLineDisableWritten(r: Regs, irq: nat)
    requires r.Valid()
  {
    irq < CoveredIrqs && IsSet(r.Read(Dis(Bank(irq))), BankBit(irq))
  }

  /** The two register sets an IRQ has a bit in. */
  datatype BankSet = SetEnable | ClearEnable

  /** Bank `n` of a register set. */
  function BankReg(bs: BankSet, n: nat): (x: Reg)
    ensures Known(x) <==> n < EnableBanks
  {
    match bs
    case SetEnable => En(n)
    case ClearEnable => Dis(n)
  }

  /** The bank the driver's cascade selects: it tests the IRQ against 32, 64,
      96, 128 and 160 in turn and picks the first bank whose bound it is under.
      The cascade computes `irq / 32`, and selects nothing from 160 on. */
  function CascadeBank(irq: nat): (k: Option<nat>)
    ensures k.Some? <==> irq < CoveredIrqs
    ensures k.Some? ==> k.value == Bank(irq) && irq - 32 * k.value == irq % 32
  {
    if irq < 32 then Some(0)
    else if irq < 64 then Some(1)
    else if irq < 96 then Some(2)
    else if irq < 128 then Some(3)
    else if irq < 160 then Some(4)
    else None
  }

  /** What NVIC_EnableIRQ and NVIC_DisableIRQ do to their register set: OR
      `1 << (irq - 32k)` into the bank k the cascade selects. The effect is bit
      `irq % 32` of bank `irq / 32`; an IRQ past the fifth bank reaches no
      register. */
  function OrIrqBit(r: Regs, bs: BankSet, irq: nat): (r': Regs)
    requires r.Valid()
    ensures r'.Valid()
    ensures SameMasks(r, r')
    ensures irq < CoveredIrqs ==>
              IsSet(r'.Read(BankReg(bs, Bank(irq))), BankBit(irq))
              && ChangesOnly(r, r', BankReg(bs, Bank(irq)), Bit(BankBit(irq)))
    ensures irq >= CoveredIrqs ==> r' == r
  {
    match CascadeBank(irq)
    case Some(k) => OrBit(r, BankReg(bs, k), ToIndex(irq - 32 * k))
    case None => r
  }

  /** NVIC_EnableIRQ: lift both global masks, then set bit `irq % 32` of
      enable bank `irq / 32`; an IRQ past the fifth bank reaches no bank, but
      the masks are lifted all the same. */
  function EnableIRQ(r: Regs, irq: nat): (r': Regs)
    requires r.Valid()
    ensures r'.Valid()
    ensures r'.irqUnmasked && r'.faultsUnmasked
    ensures irq < CoveredIrqs ==>
              IsSet(r'.Read(En(Bank(irq))), BankBit(irq))
              && ChangesOnly(r, r', En(Bank(irq)), Bit(BankBit(irq)))
    ensures irq >= CoveredIrqs ==> r'.cells == r.cells
  {
    var u := r.(irqUnmasked := true, faultsUnmasked := true);
    assert u.Valid() && SameExcept(r, u, {});
    OrIrqBit(u, SetEnable, irq)
  }

  /** NVIC_DisableIRQ: OR bit `irq % 32` into clear-enable bank `irq / 32`;
      no enable bank and no global mask is touched, and an IRQ past the fifth
      bank changes nothing. */
  function DisableIRQ(r: Regs, irq: nat): (r': Regs)
    requires r.Valid()
    ensures r'.Valid()
    ensures SameMasks(r, r')
    ensures irq < CoveredIrqs ==>
              IsSet(r'.Read(Dis(Bank(irq))), BankBit(irq))
              && ChangesOnly(r, r', Dis(Bank(irq)), Bit(BankBit(irq)))
    ensures irq >= CoveredIrqs ==> r' == r
  {
    OrIrqBit(r, ClearEnable, irq)
  }

  /** The priority register that holds an IRQ's field. */
  function PriorityIndex(irq: IrqNum): (k: nat)
    ensures k < PriorityRegs
  {
    irq / 4
  }

  /** The address the driver computes for an IRQ's priority register: a
      word-aligned address inside the block of PRI0..PRI19, and the one that
      names register `irq / 4`. */
  function PriorityAddress(irq: IrqNum): (a: nat)
    ensures PriorityBase <= a < PriorityBase + 4 * PriorityRegs
    ensures a % 4 == 0
    ensures PriorityRegAt(a) == Some(Pri(irq / 4))
  {
    PriorityBase + 4 * PriorityIndex(irq)
  }

  /** The priority register an address in the NVIC priority block names, if
      it is the word-aligned address of one. */
  function PriorityRegAt(a: nat): (x: Option<Reg>)
    ensures x.Some? ==> Known(x.value) && x.value.Pri?
  {
    if PriorityBase <= a < PriorityBase + 4 * PriorityRegs && (a - PriorityBase) % 4 == 0
    then Some(Pri((a - PriorityBase) / 4))
    else None
  }

  /** The lowest bit of an IRQ's 3-bit priority field: the top three bits of
      byte `irq % 4` of its priority register. */
  function PriorityShift(irq: IrqNum): (s: bv5)
    ensures IsFieldShift(s)
    ensures s as int == 8 * (irq % 4) + 5
  {
    var slot := irq % 4;
    if slot == 0 then 5 else if slot == 1 then 13 else if slot == 2 then 21 else 29
  }

  /** The priority an IRQ's field holds. */
  function IrqPriority(r: Regs, irq: IrqNum): bv32
    requires r.Valid()
  {
    Field(r.Read(Pri(PriorityIndex(irq))), PriorityShift(irq))
  }

  /** NVIC_SetPriorityIRQ. The driver recovers the slot of the IRQ within its
      register as `loc`, one of 0, 25, 50 and 75, and dispatches on it to
      rewrite the field at 5, 13, 21 or 29 by clear-then-OR. Afterwards the
      field reads back the priority and no other bit of the register file
      moved. */
  function SetPriorityIRQ(r: Regs, irq: IrqNum, p: Priority): (r': Regs)
    requires r.Valid()
    ensures r'.Valid()
    ensures IrqPriority(r', irq) == PriorityBits(p)
    ensures ChangesOnly(r, r', Pri(PriorityIndex(irq)), FieldMask(PriorityShift(irq)))
    ensures SameMasks(r, r')
  {
    var x := Pri(irq / 4);
    var loc := 25 * (irq % 4);
    var v := PriorityBits(p);
    if loc == 0 then PutField(r, x, 5, v)
    else if loc == 25 then PutField(r, x, 13, v)
    else if loc == 50 then PutField(r, x, 21, v)
    else if loc == 75 then PutField(r, x, 29, v)
    else r
  }

  /** Where each exception kind's enable bit lives, as the driver writes it;
      kinds without an entry are not handled. */
  function EnableTarget(e: ExceptionKind): Option<(Reg, bv5)>
  {
    match e
    case MemFault => Some((SysHndCtrl, 16))
    case BusFault => Some((SysHndCtrl, 17))
    case UsageFault => Some((SysHndCtrl, 18))
    case DebugMonitor => Some((SysHndCtrl, 8))
    case SysTick => Some((StCtrl, 1))
    case _ => None
  }

  /** Where each exception kind's priority field lives, as the driver writes
      it; kinds without an entry are not handled. */
  function PriorityTarget(e: ExceptionKind): Option<(Reg, bv5)>
  {
    match e
    case MemFault => Some((SysPri1, MemFaultPriorityPos))
    case BusFault => Some((SysPri1, BusFaultPriorityPos))
    case UsageFault => Some((SysPri1, UsageFaultPriorityPos))
    case SysTick => Some((SysPri3, SysTickPriorityPos))
    case _ => None
  }

  /** The priority field of a handled exception kind, as it reads now. */
  function ExceptionPriority(r: Regs, e: ExceptionKind): Option<bv32>
    requires r.Valid()
  {
    match PriorityTarget(e)
    case Some((x, s)) => Some(Field(r.Read(x), s))
    case None => None
  }

  /** Whether the enable bit of a handled exception kind reads 1. */
  ghost predicate IsExceptionEnabled(r: Regs, e: ExceptionKind)
    requires r.Valid()
  {
    EnableTarget(e).Some? && IsSet(r.Read(EnableTarget(e).value.0), EnableTarget(e).value.1)
  }

  /** NVIC_EnableException: set the kind's enable bit and nothing else; for a
      kind the switch does not handle, the register file is unchanged. */
  function EnableException(r: Regs, e: ExceptionKind): (r': Regs)
    requires r.Valid()
    ensures r'.Valid()
    ensures EnableTarget(e).Some? ==>
              var (x, i) := EnableTarget(e).value;
              IsSet(r'.Read(x), i) && ChangesOnly(r, r', x, Bit(i)) && SameMasks(r, r')
    ensures EnableTarget(e).None? ==> r' == r
  {
    match e
    case MemFault => OrBit(r, SysHndCtrl, 16)
    case BusFault => OrBit(r, SysHndCtrl, 17)
    case UsageFault => OrBit(r, SysHndCtrl, 18)
    case DebugMonitor => OrBit(r, SysHndCtrl, 8)
    case SysTick => OrBit(r, StCtrl, 1)
    case _ => r
  }

  /** NVIC_DisableException: clear the kind's enable bit and nothing else; for
      a kind the switch does not handle, the register file is unchanged. */
  function DisableException(r: Regs, e: ExceptionKind): (r': Regs)
    requires r.Valid()
    ensures r'.Valid()
    ensures EnableTarget(e).Some? ==>
              var (x, i) := EnableTarget(e).value;
              !IsSet(r'.Read(x), i) && ChangesOnly(r, r', x, Bit(i)) && SameMasks(r, r')
    ensures EnableTarget(e).None? ==> r' == r
  {
    match e
    case MemFault => AndNotBit(r, SysHndCtrl, 16)
    case BusFault => AndNotBit(r, SysHndCtrl, 17)
    case UsageFault => AndNotBit(r, SysHndCtrl, 18)
    case DebugMonitor => AndNotBit(r, SysHndCtrl, 8)
    case SysTick => AndNotBit(r, StCtrl, 1)
    case _ => r
  }

  /** The driver's clear-then-OR with a header mask and position: for a mask
      that covers exactly the field at the position, it is the field write. */
  function MaskedWrite(r: Regs, x: Reg, mask: bv32, pos: bv5, v: bv32): (r': Regs)
    requires r.Valid() && Known(x) && IsFieldShift(pos) && mask == FieldMask(pos) && v <= 7
    ensures r' == PutField(r, x, pos, v)
  {
    var cleared := r.Write(x, r.Read(x) & !mask);
    WriteTwice(r, x, r.Read(x) & !mask, cleared.Read(x) | (v << pos));
    cleared.Write(x, cleared.Read(x) | (v << pos))
  }

  /** NVIC_SetPriorityException: rewrite the kind's priority field with the
      header's mask and position. The field reads back the priority and no
      other bit of the register file moves; for a kind the switch does not
      handle (debug monitor, SVC and PendSV among them, although the header
      defines masks for them) the register file is unchanged. */
  function SetPriorityException(r: Regs, e: ExceptionKind, p: Priority): (r': Regs)
    requires r.Valid()
    ensures r'.Valid()
    ensures PriorityTarget(e).Some? ==>
              var (x, s) := PriorityTarget(e).value;
              Field(r'.Read(x), s) == PriorityBits(p)
              && ChangesOnly(r, r', x, FieldMask(s)) && SameMasks(r, r')
    ensures PriorityTarget(e).None? ==> r' == r
  {
    var v := PriorityBits(p);
    match e
    case MemFault => MaskedWrite(r, SysPri1, MemFaultPriorityMask, MemFaultPriorityPos, v)
    case BusFault => MaskedWrite(r, SysPri1, BusFaultPriorityMask, BusFaultPriorityPos, v)
    case UsageFault => MaskedWrite(r, SysPri1, UsageFaultPriorityMask, UsageFaultPriorityPos, v)
    case SysTick => MaskedWrite(r, SysPri3, SysTickPriorityMask, SysTickPriorityPos, v)
    case _ => r
  }
}

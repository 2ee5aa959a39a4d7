/** The constants and enumerations of the NVIC driver's header: the system
    handler priority masks with their bit positions, the fault enable masks,
    the IRQ, exception and priority enumerations. */
module NvicDefs {
  import opened Bits
  import opened Options

  /* System handler priority fields: each mask covers the three bits that
     start at its paired position. */
  const MemFaultPriorityMask: bv32 := 0x0000_00E0
  const MemFaultPriorityPos: bv5 := 5
  const BusFaultPriorityMask: bv32 := 0x0000_E000
  const BusFaultPriorityPos: bv5 := 13
  const UsageFaultPriorityMask: bv32 := 0x00E0_0000
  const UsageFaultPriorityPos: bv5 := 21
  const SvcPriorityMask: bv32 := 0xE000_0000
  const SvcPriorityPos: bv5 := 29
  const DebugMonitorPriorityMask: bv32 := 0x0000_00E0
  const DebugMonitorPriorityPos: bv5 := 5
  const PendSvPriorityMask: bv32 := 0x00E0_0000
  const PendSvPriorityPos: bv5 := 21
  const SysTickPriorityMask: bv32 := 0xE000_0000
  const SysTickPriorityPos: bv5 := 29

  /* Fault enable bits of the system handler control register. */
  const MemFaultEnableMask: bv32 := 0x0001_0000
  const BusFaultEnableMask: bv32 := 0x0002_0000
  const UsageFaultEnableMask: bv32 := 0x0004_0000

  /** An IRQ of the enumeration: GPIO_PORT_A = 0 up to PWM_1_FAULT = 77,
      with no gaps. */
  type IrqNum = n: nat | n <= 77

  const GpioPortA: IrqNum := 0
  const Pwm1Fault: IrqNum := 77

  /** A value of either priority enumeration (Priority_0..Priority_7 and
      Priority_exception_0..Priority_exception_7). */
  type Priority = p: nat | p <= 7

  /** The exception enumeration, in declaration order. */
  datatype ExceptionKind =
    | Reset | Nmi | HardFault | MemFault | BusFault | UsageFault
    | Svc | DebugMonitor | PendSv | SysTick

  /** The enumerator's value in C. */
  function Ordinal(e: ExceptionKind): (k: nat)
    ensures k < 10
  {
    match e
    case Reset => 0
    case Nmi => 1
    case HardFault => 2
    case MemFault => 3
    case BusFault => 4
    case UsageFault => 5
    case Svc => 6
    case DebugMonitor => 7
    case PendSv => 8
    case SysTick => 9
  }

  /** The exception kind a C value denotes, if any. */
  function KindOf(k: nat): (e: Option<ExceptionKind>)
    ensures e.Some? <==> k < 10
    ensures e.Some? ==> Ordinal(e.value) == k
  {
    if k == 0 then Some(Reset)
    else if k == 1 then Some(Nmi)
    else if k == 2 then Some(HardFault)
    else if k == 3 then Some(MemFault)
    else if k == 4 then Some(BusFault)
    else if k == 5 then Some(UsageFault)
    else if k == 6 then Some(Svc)
    else if k == 7 then Some(DebugMonitor)
    else if k == 8 then Some(PendSv)
    else if k == 9 then Some(SysTick)
    else None
  }

  /** The header's priority mask and position pair for an exception kind, for
      the seven kinds the header defines one for. */
  function HeaderPriorityField(e: ExceptionKind): Option<(bv32, bv5)>
  {
    match e
    case MemFault => Some((MemFaultPriorityMask, MemFaultPriorityPos))
    case BusFault => Some((BusFaultPriorityMask, BusFaultPriorityPos))
    case UsageFault => Some((UsageFaultPriorityMask, UsageFaultPriorityPos))
    case Svc => Some((SvcPriorityMask, SvcPriorityPos))
    case DebugMonitor => Some((DebugMonitorPriorityMask, DebugMonitorPriorityPos))
    case PendSv => Some((PendSvPriorityMask, PendSvPriorityPos))
    case SysTick => Some((SysTickPriorityMask, SysTickPriorityPos))
    case _ => None
  }

  /** The header's fault enable mask for an exception kind, for the three
      kinds it defines one for. */
  function HeaderEnableMask(e: ExceptionKind): Option<bv32>
  {
    match e
    case MemFault => Some(MemFaultEnableMask)
    case BusFault => Some(BusFaultEnableMask)
    case UsageFault => Some(UsageFaultEnableMask)
    case _ => None
  }

  /** A priority as the word the drivers shift into a field. */
  function PriorityBits(p: Priority): (v: bv32)
    ensures v <= 7 && v as int == p
  {
    p as bv32
  }
}

# Cortex-M4 NVIC and SysTick drivers, modelled in Dafny

This project models two small bare-metal drivers for an ARM Cortex-M4 (TM4C123):

- **The NVIC driver.** It enables, disables and prioritises peripheral interrupt lines (IRQs). It also enables, disables and prioritises the core system exceptions.
- **The SysTick driver.** It programs the core's 24-bit system tick timer for periodic interrupts or a busy wait. It keeps one callback slot that the SysTick handler calls.

Every driver service is a pure transformer of an abstract register file:

- Each register the drivers update bit by bit is a named `bv32` cell.
- The two global masks lifted by `CPSIE I` and `CPSIE F` are two booleans.
- The SysTick RELOAD and CURRENT registers are kept with the timer state as numbers below 2^32, since the driver only ever assigns them whole values.
- The callback slot is an `Option<Callback>`. The handler returns the list of callbacks it invoked instead of running them.

Modules, one per file or pair of files:

| module | file | contents |
|---|---|---|
| `Bits` | bits.dfy | single bits and 3-bit fields of a word; set/clear and clear-then-OR, with frame lemmas |
| `Options`, `Registers` | registers.dfy | the register file, `Read`/`Write`, and the frame predicates `SameExcept` and `ChangesOnly` |
| `NvicDefs` | nvic_defs.dfy | the header's masks, positions and enumerations |
| `Nvic` | nvic.dfy | the six NVIC services |
| `NvicProperties` | nvic_lemmas.dfy | read-back, frame, idempotence and last-wins lemmas; header agreement |
| `SysTick` | systick.dfy | the timer state, the reload formulas, the SysTick services and the busy-wait loop |
| `SysTickProperties` | systick_lemmas.dfy | properties relating several SysTick calls, and how SysTick and NVIC share CTRL bit 1 |

Where a redesign of these drivers would report errors (an IRQ past the last bank, an exception kind without a control bit), the model follows the code as written: these cases are silent no-ops, and the model proves exactly that. Init's reload is likewise the code's formula with `tick_per_sec` = 15999999. For 10 ms it gives 143999, not the 144000 that a 16 MHz clock would suggest.

## Model

| member | source | states |
|---|---|---|
| Bits.SetBitEffect | ARM_cortexM4_NVIC_driver/nvic.c:112 | OR-ing `1 << i` into a word sets bit i and leaves every other bit of the word as it was |
| Bits.ClearBitEffect | ARM_cortexM4_NVIC_driver/nvic.c:145 | `x &= ~(1 << i)` clears bit i and leaves every other bit of the word as it was |
| Bits.WriteFieldReadBack | ARM_cortexM4_NVIC_driver/nvic.c:84-85 | after clear-then-OR of a value 0..7 at shift 5, 13, 21 or 29, `(x >> s) & 7` reads the value back, and nothing outside `7 << s` moves |
| Bits.WriteFieldLastWins | ARM_cortexM4_NVIC_driver/nvic.c:84-85 | two successive clear-then-OR writes of the same field leave the word the last write alone would leave |
| Bits.WriteFieldIdempotent | ARM_cortexM4_NVIC_driver/nvic.c:84-85 | writing the same value into a field twice equals writing it once |
| Bits.WriteFieldKeepsOtherField | ARM_cortexM4_NVIC_driver/nvic.c:83-95 | writing one of the four byte-top fields leaves each of the other three fields reading what it read before |
| Registers.OrBit | ARM_cortexM4_NVIC_driver/nvic.c:112 | register-level OR of `1 << i`: bit i reads 1; every other bit, every other register and both masks are unchanged |
| Registers.AndNotBit | ARM_cortexM4_NVIC_driver/nvic.c:145 | register-level `x &= ~(1 << i)`: bit i reads 0; every other bit, every other register and both masks are unchanged |
| Registers.PutField | ARM_cortexM4_NVIC_driver/nvic.c:84-85 | register-level field write: the field reads the value back; nothing outside the field mask, in any register, changes |
| Registers.AndNotAfterOr | ARM_cortexM4_NVIC_driver/nvic.c:112 | clearing a register bit right after setting it equals clearing it only |
| Registers.OrAfterAndNot | ARM_cortexM4_NVIC_driver/nvic.c:145 | setting a register bit right after clearing it equals setting it only |
| NvicDefs.Ordinal | ARM_cortexM4_NVIC_driver/nvic.h:148-160 | every exception kind has a C value below 10 |
| NvicDefs.KindOf | ARM_cortexM4_NVIC_driver/nvic.h:148-160 | a C value denotes an exception kind exactly when it is below 10, and that kind's value is the given one |
| NvicDefs.PriorityBits | ARM_cortexM4_NVIC_driver/nvic.h:162-182 | every value of either priority enumeration fits in the 3-bit field (at most 7) |
| Nvic.CascadeBank | ARM_cortexM4_NVIC_driver/nvic.c:28-38 | the cascade of range tests selects a bank exactly for IRQs below 160; it picks bank `irq / 32`, and `irq - 32k` is `irq % 32` |
| Nvic.OrIrqBit | ARM_cortexM4_NVIC_driver/nvic.c:28-38 | the cascaded OR sets bit `irq % 32` of bank `irq / 32` and changes nothing else; from 160 on it changes nothing |
| Nvic.EnableIRQ | ARM_cortexM4_NVIC_driver/nvic.c:24-39 | both global masks end lifted; bit `irq % 32` of enable bank `irq / 32` reads 1 and no other bit or register moves; from 160 on no register changes |
| Nvic.DisableIRQ | ARM_cortexM4_NVIC_driver/nvic.c:51-64 | in the plain-storage model: the stored bit `irq % 32` of clear-enable bank `irq / 32` is 1, nothing else moves and the masks stay; from 160 on the register file is unchanged |
| Nvic.PriorityIndex | ARM_cortexM4_NVIC_driver/nvic.c:79 | every IRQ of the enumeration has its priority register among PRI0..PRI19 |
| Nvic.PriorityAddress | ARM_cortexM4_NVIC_driver/nvic.c:80 | `0xE000E400 + 4 * (irq / 4)` is a word-aligned address inside the PRI0..PRI19 block, and the register at that address is PRI `irq / 4` |
| Nvic.PriorityShift | ARM_cortexM4_NVIC_driver/nvic.c:81-95 | the field the slot dispatch picks has its lowest bit at `8 * (irq % 4) + 5`, one of the four field shifts |
| Nvic.SetPriorityIRQ | ARM_cortexM4_NVIC_driver/nvic.c:77-96 | the IRQ's field in PRI `irq / 4` reads the priority back; no bit outside that field, in any register, and neither mask changes |
| Nvic.EnableException | ARM_cortexM4_NVIC_driver/nvic.c:108-129 | for the five handled kinds, the kind's enable bit reads 1 and nothing else moves; for the other kinds the register file is unchanged |
| Nvic.DisableException | ARM_cortexM4_NVIC_driver/nvic.c:141-162 | for the five handled kinds, the kind's enable bit reads 0 and nothing else moves; for the other kinds the register file is unchanged |
| Nvic.MaskedWrite | ARM_cortexM4_NVIC_driver/nvic.c:179-180 | clearing with a header mask and then ORing at its paired position is the field write at that position |
| Nvic.SetPriorityException | ARM_cortexM4_NVIC_driver/nvic.c:175-197 | for mem, bus, usage fault and SysTick, the kind's field reads the priority back and nothing outside it moves; for every other kind the register file is unchanged |
| NvicProperties.EnableIRQReadBack | ARM_cortexM4_NVIC_driver/nvic.c:28-38 | after EnableIRQ, a line reads enabled iff it is the line just enabled (below 160) or it read enabled before |
| NvicProperties.DisableIRQKeepsEnables | ARM_cortexM4_NVIC_driver/nvic.c:53-63 | in the plain-storage model, DisableIRQ writes no set-enable bank, so no stored enable bit changes |
| NvicProperties.DisableIRQReadBack | ARM_cortexM4_NVIC_driver/nvic.c:53-63 | in the plain-storage model, after DisableIRQ a line's stored clear-enable bit is 1 iff it is the line just disabled (below 160) or it read 1 before |
| NvicProperties.OrIrqBitReadBack | ARM_cortexM4_NVIC_driver/nvic.c:28-38 | the cascade sets the bit of line `irq` and of no other line, in the same bank or another |
| NvicProperties.OutOfRangeIrqTouchesNoBank | ARM_cortexM4_NVIC_driver/nvic.c:26-38 | for IRQ 160 and above neither service changes a register, yet EnableIRQ still lifts both masks |
| NvicProperties.EnableIRQIdempotent | ARM_cortexM4_NVIC_driver/nvic.c:24-39 | enabling a line twice equals enabling it once |
| NvicProperties.DisableIRQIdempotent | ARM_cortexM4_NVIC_driver/nvic.c:51-64 | writing a line's clear-enable bit twice equals writing it once |
| NvicProperties.IrqTargetsInRange | ARM_cortexM4_NVIC_driver/nvic.h:67-146 | every IRQ of the enumeration (0..77) lies in enable bank 0..2 and PRI0..PRI19, at a word-aligned address from 0xE000E400 to 0xE000E44C; the first (GPIO_PORT_A) and last (PWM_1_FAULT) IRQs land in bank 0 / PRI0 and bank 2 / PRI19 |
| NvicProperties.PriorityRegisterSharing | ARM_cortexM4_NVIC_driver/nvic.c:79-81 | two IRQs get the same priority register address iff they agree on `irq / 4`, and two such IRQs use different fields |
| NvicProperties.SetPriorityIRQIsFieldWrite | ARM_cortexM4_NVIC_driver/nvic.c:81-95 | dispatching on `25 * (irq % 4)` writes the same field as shifting by `8 * (irq % 4) + 5` |
| NvicProperties.SetPriorityIRQReadBack | ARM_cortexM4_NVIC_driver/nvic.c:83-95 | after SetPriorityIRQ the IRQ's priority reads the new value and every other IRQ's reads as before |
| NvicProperties.SetPriorityIRQIdempotent | ARM_cortexM4_NVIC_driver/nvic.c:84-85 | setting the same IRQ priority twice equals setting it once |
| NvicProperties.SetPriorityIRQLastWins | ARM_cortexM4_NVIC_driver/nvic.c:84-85 | of two successive priorities for one IRQ, the resulting register file is the one the last alone gives |
| NvicProperties.ExceptionOrdinalRoundTrip | ARM_cortexM4_NVIC_driver/nvic.h:148-160 | kinds and C values 0..9 correspond one to one |
| NvicProperties.HandledKinds | ARM_cortexM4_NVIC_driver/nvic.c:110-196 | exactly the kinds 3, 4, 5, 7, 9 have an enable bit and exactly 3, 4, 5, 9 a priority field; reset, NMI, hard fault, SVC and PendSV have neither |
| NvicProperties.HeaderPriorityMasksMatchPositions | ARM_cortexM4_NVIC_driver/nvic.h:25-44 | every priority mask of the header is `7 << POS` for its paired position, and every position is 5, 13, 21 or 29 |
| NvicProperties.FaultPriorityMasksDisjoint | ARM_cortexM4_NVIC_driver/nvic.h:25-32 | the mem, bus and usage fault masks, all in PRI1, are pairwise disjoint |
| NvicProperties.HeaderEnableMasksMatchTargets | ARM_cortexM4_NVIC_driver/nvic.h:46-48 | the three fault enable masks are the single SYSHNDCTRL bits 16, 17, 18 that EnableException sets |
| NvicProperties.PriorityTargetsMatchHeader | ARM_cortexM4_NVIC_driver/nvic.c:177-193 | the fields SetPriorityException writes are PRI1 bits 7:5, 15:13, 23:21 (mem, bus, usage fault) and PRI3 bits 31:29 (SysTick), and each header mask it clears (nvic.h:25-44) is exactly the bits of that field |
| NvicProperties.SetPriorityIRQWritesAddressedRegister | ARM_cortexM4_NVIC_driver/nvic.c:79-95 | the register SetPriorityIRQ rewrites is the one named by the address `0xE000E400 + 4 * (irq / 4)` the driver computes |
| NvicProperties.EnableTargetsDistinct | ARM_cortexM4_NVIC_driver/nvic.c:110-128 | different handled kinds have different enable bits |
| NvicProperties.EnableExceptionIsOrBit | ARM_cortexM4_NVIC_driver/nvic.c:110-125 | for a handled kind, EnableException is the OR of that kind's bit |
| NvicProperties.DisableExceptionIsAndNotBit | ARM_cortexM4_NVIC_driver/nvic.c:143-158 | for a handled kind, DisableException is the AND-NOT of that kind's bit |
| NvicProperties.DisableAfterEnable | ARM_cortexM4_NVIC_driver/nvic.c:108-162 | disable after enable equals disable alone, and leaves the kind's bit 0 |
| NvicProperties.EnableAfterDisable | ARM_cortexM4_NVIC_driver/nvic.c:108-162 | enable after disable equals enable alone; the kind reads enabled iff it is handled |
| NvicProperties.EnableExceptionReadBack | ARM_cortexM4_NVIC_driver/nvic.c:110-128 | after EnableException, a kind reads enabled iff it is the handled kind just enabled or it read enabled before |
| NvicProperties.DisableExceptionReadBack | ARM_cortexM4_NVIC_driver/nvic.c:143-161 | after DisableException, a kind reads enabled iff it is not the handled kind just disabled and it read enabled before |
| NvicProperties.SetPriorityExceptionIsFieldWrite | ARM_cortexM4_NVIC_driver/nvic.c:177-193 | for a handled kind, the masked write with the header's constants is the field write at the kind's position |
| NvicProperties.SetPriorityExceptionReadBack | ARM_cortexM4_NVIC_driver/nvic.c:177-196 | after SetPriorityException the kind's priority reads the new value and every other kind's reads as before |
| NvicProperties.SetPriorityExceptionIdempotent | ARM_cortexM4_NVIC_driver/nvic.c:177-196 | setting the same exception priority twice equals setting it once |
| NvicProperties.SetPriorityExceptionLastWins | ARM_cortexM4_NVIC_driver/nvic.c:177-196 | of two successive priorities for one exception, the last one wins |
| SysTick.Boot | ARM_cortexM4_SYSTICK_timer_driver/systick.h:49 | at program start the callback slot is NULL |
| SysTick.CDiv | ARM_cortexM4_SYSTICK_timer_driver/systick.c:31 | C's `/` on `int` truncates toward zero, for negative dividends too |
| SysTick.ToUint32 | ARM_cortexM4_SYSTICK_timer_driver/systick.c:31 | storing an `int` into the unsigned register keeps non-negative values and adds 2^32 to negative ones |
| SysTick.InitReload | ARM_cortexM4_SYSTICK_timer_driver/systick.c:31 | for 1..135 ms the reload is `(ms - 1) * 15999999 / 1000`; for 0 ms it wraps to 2^32 - 15999 |
| SysTick.BusyWaitReload | ARM_cortexM4_SYSTICK_timer_driver/systick.c:128 | the busy-wait reload is `ms * 15999` for every `uint16` period |
| SysTick.Init | ARM_cortexM4_SYSTICK_timer_driver/systick.c:26-33 | CTRL bits 0..2 (enable, interrupt, clock source) end set and every other CTRL bit is as before; CURRENT is 0, RELOAD is Init's formula; both masks are lifted; no other register and not the slot moves |
| SysTick.Start | ARM_cortexM4_SYSTICK_timer_driver/systick.c:92-95 | CTRL bit 0 reads 1; no other bit, register, mask, RELOAD, CURRENT or slot changes |
| SysTick.Stop | ARM_cortexM4_SYSTICK_timer_driver/systick.c:77-80 | CTRL bit 0 reads 0; no other bit, register, mask, RELOAD, CURRENT or slot changes |
| SysTick.DeInit | ARM_cortexM4_SYSTICK_timer_driver/systick.c:107-112 | CTRL keeps only its bit 3 (`CTRL & ~0x8 == 0`, bit 3 as before); RELOAD and CURRENT are 0; nothing else moves |
| SysTick.SetCallBack | ARM_cortexM4_SYSTICK_timer_driver/systick.c:62-65 | the slot holds the given function (or NULL); no register changes |
| SysTick.Handler | ARM_cortexM4_SYSTICK_timer_driver/systick.c:45-50 | the state is unchanged; one callback is invoked iff the slot is non-NULL, and it is the slot's |
| SysTick.BusyWaitSetup | ARM_cortexM4_SYSTICK_timer_driver/systick.c:124-129 | CTRL bit 1 ends clear, bits 0 and 2 set, every other CTRL bit as before; RELOAD is `ms * 15999`, CURRENT 0; nothing else moves |
| SysTick.Spin | ARM_cortexM4_SYSTICK_timer_driver/systick.c:130 | the loop exits right after the first CTRL read with bit 16 set, and only then; with no such read it consumes every read |
| SysTick.StartBusyWait | ARM_cortexM4_SYSTICK_timer_driver/systick.c:124-131 | the state is the setup's; the call returns iff some CTRL read has bit 16 set, and it leaves right after the first such read; with none it consumes every read |
| SysTick.FirstCountFlagFinds | ARM_cortexM4_SYSTICK_timer_driver/systick.c:130 | the reference search finds a read with bit 16 set iff there is one, and it finds the earliest |
| SysTickProperties.StopAfterStart | ARM_cortexM4_SYSTICK_timer_driver/systick.c:77-95 | Stop right after Start equals Stop alone |
| SysTickProperties.StartAfterStop | ARM_cortexM4_SYSTICK_timer_driver/systick.c:77-95 | Start right after Stop equals Start alone |
| SysTickProperties.StartStopKeepReload | ARM_cortexM4_SYSTICK_timer_driver/systick.c:79-94 | after Init, Start and Stop the reload is still Init's and CURRENT still 0, with the timer disabled |
| SysTickProperties.StartAfterInit | ARM_cortexM4_SYSTICK_timer_driver/systick.c:32 | Init already sets the enable bit, so Start right after Init changes nothing |
| SysTickProperties.DeInitIdempotent | ARM_cortexM4_SYSTICK_timer_driver/systick.c:107-112 | DeInit twice equals DeInit once |
| SysTickProperties.DeInitForgets | ARM_cortexM4_SYSTICK_timer_driver/systick.c:109-111 | states that agree on CTRL bit 3, on the other registers, the masks and the slot end up equal after DeInit, whatever RELOAD and CURRENT were |
| SysTickProperties.SetCallBackLastWins | ARM_cortexM4_SYSTICK_timer_driver/systick.c:64 | of two SetCallBack calls, the last one wins |
| SysTickProperties.HandlerInvokesSlot | ARM_cortexM4_SYSTICK_timer_driver/systick.c:47-49 | after SetCallBack(f), the handler invokes f once, or nothing for NULL |
| SysTickProperties.HandlerAtBoot | ARM_cortexM4_SYSTICK_timer_driver/systick.h:49 | a handler run before any SetCallBack invokes nothing |
| SysTickProperties.HandlerRepeated | ARM_cortexM4_SYSTICK_timer_driver/systick.c:45-50 | n handler runs with no SetCallBack in between invoke the slot's callback n times over (or nothing, for NULL) |
| SysTickProperties.Apply | ARM_cortexM4_SYSTICK_timer_driver/systick.c:62-65 | a SetCallBack between two handler runs, or none, changes at most the slot, to the stored function |
| SysTickProperties.HandlerLogInvokesCurrentSlot | ARM_cortexM4_SYSTICK_timer_driver/systick.c:45-65 | when handler runs are interleaved with arbitrary SetCallBack calls (from the main line or from the callback itself, SetCallBack being reentrant), each run invokes exactly the callback the last preceding SetCallBack stored, or the initial slot's if there was none |
| SysTickProperties.InitProductInRange | ARM_cortexM4_SYSTICK_timer_driver/systick.h:27 | `(ms - 1) * 15999999` is a non-negative C `int` exactly for 1 ≤ ms ≤ 135 |
| SysTickProperties.BusyWaitProductInRange | ARM_cortexM4_SYSTICK_timer_driver/systick.h:56-68 | `ms * 15999` fits a C `int` for every `uint16` period |
| SysTickProperties.ReloadExamples | ARM_cortexM4_SYSTICK_timer_driver/systick.c:31 | the two formulas give 0 vs 15999 for 1 ms and 143999 vs 159990 for 10 ms; Init's 0 ms wraps to 0xFFFFC181 |
| SysTickProperties.InitReloadBelowBusyWait | ARM_cortexM4_SYSTICK_timer_driver/systick.c:31 | for every period 1..135, Init's reload is strictly below the busy-wait reload (systick.c:128) |
| SysTickProperties.InitReloadMonotonic | ARM_cortexM4_SYSTICK_timer_driver/systick.c:31 | Init's reload does not decrease as the period grows over 1..135 |
| SysTickProperties.InitEnablesSysTickException | ARM_cortexM4_SYSTICK_timer_driver/systick.c:32 | after Init the SysTick exception reads enabled, in the NVIC driver's sense (CTRL bit 1) |
| SysTickProperties.BusyWaitDisablesSysTickException | ARM_cortexM4_SYSTICK_timer_driver/systick.c:126 | after the busy-wait setup the SysTick exception reads disabled |
| SysTickProperties.DisableSysTickAfterInit | ARM_cortexM4_NVIC_driver/nvic.c:156-157 | NVIC_DisableException(SysTick) after Init clears CTRL bit 1 only: the timer stays enabled on the system clock |

## Left out

- Inline assembly: `CPSIE I` and `CPSIE F` are the two mask booleans. `CPSID` and `WFI` are never used by the modelled services.
- Register addresses and widths from `tm4c123gh6pm_registers.h`, which is not part of this model. Registers are named cells; only the priority register address formula of nvic.c:80 is kept.
- Nvic.SetPriorityIRQ: the slot `((float)irq / 4 - irq / 4) * 100` of nvic.c:81 is computed as `25 * (irq % 4)`. For IRQs 0..77 every step of the float expression is exact in binary32, so the two agree.
- Nvic.SetPriorityIRQ: takes priorities of the enumeration only (0..7). The C parameter is an enum through which any `int` can be passed, and nvic.c:85 ORs `priority << shift` in without masking it, so a larger value spills into the fields above (priority 256 in slot 0 lands in slot 1's field). The frame and read-back contracts are stated for 0..7 only.
- Nvic.SetPriorityException: takes priorities of the enumeration only (0..7). As at nvic.c:85, nvic.c:180-192 OR the unmasked `priority << POS` in, so an out-of-enum value would spill outside the kind's field; the contracts are stated for 0..7 only.
- Nvic.SetPriorityIRQ: takes IRQs of the enumeration only (0..77), the domain of its C parameter type. Priority registers beyond PRI19 are not modelled.
- Nvic.DisableIRQ: the contract speaks of the stored clear-enable bits only; that the line ends disabled is not stated. On the device the clear-enable banks are write-1-to-clear and read back the enable state, so the read-modify-write `DISn |= 1 << k` of nvic.c:54-62 writes a 1 for every line already enabled and disables every enabled line of that bank, not only line `irq`.
- Hardware register semantics: write-1-to-clear on the clear-enable banks, COUNTFLAG clearing on read, CURRENT clearing on any write, and RELOAD's 24-bit width are not modelled. The register file is plain storage for every store the drivers make.
- SysTick.StartBusyWait: the busy-wait loop of systick.c:130 cannot work on plain storage, since it waits for CTRL bit 16, which the driver never stores. Its CTRL reads are therefore an input (`ctrlReads`) from the timer hardware, unrelated to the CTRL word the register file stores; after the loop exits, the stored CTRL may still have bit 16 clear.
- SysTick.Spin: termination of the busy wait depends on the timer counting in hardware. The loop is modelled over a finite sequence of CTRL reads, so a run that never sees COUNTFLAG ends with `exited` false instead of spinning for ever.
- SysTick.Handler: what the user callback does is not modelled; the handler reports which callback it invoked.
- Concurrency between main-line code and the SysTick exception, and the atomicity of the slot write, are not modelled.
- C undefined behaviour of shifts into the sign bit of a signed `int` is not modelled: `1 << 31` (nvic.c:29-37, 54-62), `7 << 29` (nvic.c:93), `IRQ_Priority << 29` (nvic.c:94) and `Exception_Priority << SYSTICK_PRIORITY_BITS_POS` (nvic.c:192) for priorities 4..7 are all `bv32` shifts.
- SysTick.Init: requires a period of at most 135 ms. From 136 ms on, `(ms - 1) * tick_per_sec` overflows a signed 32-bit `int`, which is undefined behaviour in C. Period 0 is kept: its product is -15999999, which is defined, and it truncates to -15999 and wraps to 0xFFFFC181.

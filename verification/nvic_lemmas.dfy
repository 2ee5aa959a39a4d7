/** Properties of the NVIC driver that relate several calls or several IRQs:
    read-back of enable bits and priority fields for every line, idempotence
    and last-write-wins, the enable/disable pairing of exceptions, and the
    agreement of the dispatch tables with the header's constants. */
module NvicProperties {
  import opened Bits
  import opened Options
  import opened Registers
  import opened NvicDefs
  import opened Nvic

  /** After EnableIRQ, a line reads enabled exactly when it is the line just
      enabled (and that line lies in one of the five banks) or it read enabled
      before. */
  lemma EnableIRQReadBack(r: Regs, irq: nat, j: nat)
    requires r.Valid()
    ensures IsLineEnabled(EnableIRQ(r, irq), j) <==> (j == irq && irq < CoveredIrqs) || IsLineEnabled(r, j)
  {
    OrIrqBitReadBack(r.(irqUnmasked := true, faultsUnmasked := true), SetEnable, irq, j);
  }

  /** In the plain-storage model, DisableIRQ writes no set-enable bank, so no
      stored enable bit changes. On the device the clear-enable banks are
      write-1-to-clear, which this model does not capture. */
  lemma DisableIRQKeepsEnables(r: Regs, irq: nat, j: nat)
    requires r.Valid()
    ensures IsLineEnabled(DisableIRQ(r, irq), j) <==> IsLineEnabled(r, j)
  {
  }

  /** After DisableIRQ, a line's clear-enable bit reads 1 exactly when it is
      the line just disabled (in one of the five banks) or it read 1 before. */
  lemma DisableIRQReadBack(r: Regs, irq: nat, j: nat)
    requires r.Valid()
    ensures IsLineDisableWritten(DisableIRQ(r, irq), j)
            <==> (j == irq && irq < CoveredIrqs) || IsLineDisableWritten(r, j)
  {
    OrIrqBitReadBack(r, ClearEnable, irq, j);
  }

  /** Whether line `j`'s bit in the given register set reads 1. */
  ghost predicate LineBit(r: Regs, bs: BankSet, j: nat)
    requires r.Valid()
  {
    j < CoveredIrqs && IsSet(r.Read(BankReg(bs, Bank(j))), BankBit(j))
  }

  /** The cascade sets line `irq`'s bit in its register set and no other
      line's bit. */
  lemma OrIrqBitReadBack(r: Regs, bs: BankSet, irq: nat, j: nat)
    requires r.Valid()
    ensures LineBit(OrIrqBit(r, bs, irq), bs, j) <==> (j == irq && irq < CoveredIrqs) || LineBit(r, bs, j)
  {
    if irq < CoveredIrqs && j < CoveredIrqs && j != irq {
      if Bank(j) == Bank(irq) {
        OrIrqBitSameBank(r, bs, irq, j);
      } else {
        OrIrqBitOtherBank(r, bs, irq, j);
      }
    }
  }

  /** A line in the same bank as `irq` keeps its bit. */
  lemma OrIrqBitSameBank(r: Regs, bs: BankSet, irq: nat, j: nat)
    requires r.Valid() && irq < CoveredIrqs && j != irq && Bank(j) == Bank(irq)
    ensures LineBit(OrIrqBit(r, bs, irq), bs, j) <==> LineBit(r, bs, j)
  {
    var x := BankReg(bs, Bank(irq));
    var r' := OrIrqBit(r, bs, irq);
    var a, b := r'.Read(x), r.Read(x);
    assert Outside(a, Bit(BankBit(irq))) == Outside(b, Bit(BankBit(irq)));
    OtherBitOfWord(a, b, irq, j);
  }

  /** A word that changed at most in line `irq`'s bit keeps the bit of every
      other line of the bank. */
  lemma OtherBitOfWord(a: bv32, b: bv32, irq: nat, j: nat)
    requires Bank(irq) == Bank(j) && irq != j
    requires Outside(a, Bit(BankBit(irq))) == Outside(b, Bit(BankBit(irq)))
    ensures IsSet(a, BankBit(j)) <==> IsSet(b, BankBit(j))
  {
    SameBankOtherBit(irq, j);
    AgreeOutsideBit(a, b, BankBit(irq), BankBit(j));
  }

  /** A line in another bank than `irq` keeps its bit. */
  lemma OrIrqBitOtherBank(r: Regs, bs: BankSet, irq: nat, j: nat)
    requires r.Valid() && Bank(j) != Bank(irq)
    ensures LineBit(OrIrqBit(r, bs, irq), bs, j) <==> LineBit(r, bs, j)
  {
    if j < CoveredIrqs {
      var y := BankReg(bs, Bank(j));
      assert OrIrqBit(r, bs, irq).Read(y) == r.Read(y);
    }
  }

  /** Two different lines of the same bank have different bits. */
  lemma SameBankOtherBit(irq: nat, j: nat)
    requires Bank(irq) == Bank(j) && irq != j
    ensures BankBit(irq) != BankBit(j)
  {
    ToIndexInjective(irq % 32, j % 32);
  }

  /** An IRQ from 160 on reaches no bank: neither service changes any
      register, though EnableIRQ still lifts both global masks. */
  lemma OutOfRangeIrqTouchesNoBank(r: Regs, irq: nat)
    requires r.Valid() && irq >= CoveredIrqs
    ensures EnableIRQ(r, irq).cells == r.cells
    ensures EnableIRQ(r, irq).irqUnmasked && EnableIRQ(r, irq).faultsUnmasked
    ensures DisableIRQ(r, irq) == r
  {
  }

  /** Enabling a line twice is the same as enabling it once. */
  lemma EnableIRQIdempotent(r: Regs, irq: nat)
    requires r.Valid()
    ensures EnableIRQ(EnableIRQ(r, irq), irq) == EnableIRQ(r, irq)
  {
  }

  /** Writing a line's clear-enable bit twice is the same as writing it
      once. */
  lemma DisableIRQIdempotent(r: Regs, irq: nat)
    requires r.Valid()
    ensures DisableIRQ(DisableIRQ(r, irq), irq) == DisableIRQ(r, irq)
  {
    if irq < CoveredIrqs {
      var k := CascadeBank(irq).value;
      OrBitIdempotent(r, Dis(k), ToIndex(irq - 32 * k));
    }
  }

  /** Every IRQ of the enumeration lies in enable bank 0..2 and priority
      register 0..19, and its priority register sits at a word-aligned address
      in the NVIC priority block. */
  lemma IrqTargetsInRange(irq: IrqNum)
    ensures Bank(irq) <= 2
    ensures PriorityIndex(irq) <= 19
    ensures PriorityBase <= PriorityAddress(irq) <= PriorityBase + 4 * 19
    ensures PriorityAddress(irq) % 4 == 0
    ensures Bank(Pwm1Fault) == 2 && PriorityIndex(Pwm1Fault) == 19
    ensures Bank(GpioPortA) == 0 && PriorityIndex(GpioPortA) == 0
  {
  }

  /** Two IRQs share a priority register exactly when they have the same
      address, which is exactly when they agree on `irq / 4`; sharing IRQs
      differ in their field shift. */
  lemma PriorityRegisterSharing(i: IrqNum, j: IrqNum)
    ensures PriorityAddress(i) == PriorityAddress(j) <==> i / 4 == j / 4
    ensures i / 4 == j / 4 && i != j ==> PriorityShift(i) != PriorityShift(j)
  {
  }

  /** The driver's dispatch on the slot `25 * (irq % 4)` writes the same
      field as the direct shift `8 * (irq % 4) + 5`. */
  lemma SetPriorityIRQIsFieldWrite(r: Regs, irq: IrqNum, p: Priority)
    requires r.Valid()
    ensures SetPriorityIRQ(r, irq, p)
            == PutField(r, Pri(PriorityIndex(irq)), PriorityShift(irq), PriorityBits(p))
  {
  }

  /** After SetPriorityIRQ, the IRQ's field reads the new priority and every
      other IRQ's field, in the same register or another, reads as before. */
  lemma SetPriorityIRQReadBack(r: Regs, irq: IrqNum, p: Priority, j: IrqNum)
    requires r.Valid()
    ensures IrqPriority(SetPriorityIRQ(r, irq, p), j)
            == if j == irq then PriorityBits(p) else IrqPriority(r, j)
  {
    var r' := SetPriorityIRQ(r, irq, p);
    if j != irq && PriorityIndex(j) == PriorityIndex(irq) {
      PriorityRegisterSharing(irq, j);
      var x := Pri(PriorityIndex(irq));
      AgreeOutsideField(r'.Read(x), r.Read(x), PriorityShift(irq), PriorityShift(j));
    }
  }

  /** Setting the same priority twice is the same as setting it once. */
  lemma SetPriorityIRQIdempotent(r: Regs, irq: IrqNum, p: Priority)
    requires r.Valid()
    ensures SetPriorityIRQ(SetPriorityIRQ(r, irq, p), irq, p) == SetPriorityIRQ(r, irq, p)
  {
    var r1 := SetPriorityIRQ(r, irq, p);
    var x := Pri(PriorityIndex(irq));
    SetPriorityIRQIsFieldWrite(r, irq, p);
    SetPriorityIRQIsFieldWrite(r1, irq, p);
    WriteFieldIdempotent(r.Read(x), PriorityShift(irq), PriorityBits(p));
  }

  /** Of two successive priorities for the same IRQ, the last one wins. */
  lemma SetPriorityIRQLastWins(r: Regs, irq: IrqNum, p: Priority, q: Priority)
    requires r.Valid()
    ensures SetPriorityIRQ(SetPriorityIRQ(r, irq, p), irq, q) == SetPriorityIRQ(r, irq, q)
  {
    var r1 := SetPriorityIRQ(r, irq, p);
    var x := Pri(PriorityIndex(irq));
    SetPriorityIRQIsFieldWrite(r, irq, p);
    SetPriorityIRQIsFieldWrite(r1, irq, q);
    SetPriorityIRQIsFieldWrite(r, irq, q);
    WriteFieldLastWins(r.Read(x), PriorityShift(irq), PriorityBits(p), PriorityBits(q));
  }

  /** The C values of the exception enumeration and the model's kinds
      correspond one to one. */
  lemma ExceptionOrdinalRoundTrip(e: ExceptionKind, k: nat)
    ensures KindOf(Ordinal(e)) == Some(e)
    ensures KindOf(k).Some? ==> Ordinal(KindOf(k).value) == k
  {
  }

  /** Exactly five kinds (ordinals 3, 4, 5, 7 and 9) have an enable bit, and
      exactly four (3, 4, 5 and 9) have a priority field the driver writes;
      reset, NMI, hard fault, SVC and PendSV have neither. */
  lemma HandledKinds(e: ExceptionKind)
    ensures EnableTarget(e).Some? <==> Ordinal(e) in {3, 4, 5, 7, 9}
    ensures PriorityTarget(e).Some? <==> Ordinal(e) in {3, 4, 5, 9}
    ensures e in {Reset, Nmi, HardFault, Svc, PendSv} ==> EnableTarget(e).None? && PriorityTarget(e).None?
  {
  }

  /** Every priority mask of the header is the 3-bit field at its paired
      position. */
  lemma HeaderPriorityMasksMatchPositions(e: ExceptionKind)
    ensures HeaderPriorityField(e).Some? ==>
              var (mask, pos) := HeaderPriorityField(e).value;
              IsFieldShift(pos) && mask == FieldMask(pos)
  {
  }

  /** The memory, bus and usage fault priority masks, which share the same
      register, are pairwise disjoint. */
  lemma FaultPriorityMasksDisjoint()
    ensures MemFaultPriorityMask & BusFaultPriorityMask == 0
    ensures MemFaultPriorityMask & UsageFaultPriorityMask == 0
    ensures BusFaultPriorityMask & UsageFaultPriorityMask == 0
  {
  }

  /** The header's fault enable masks are the single bits 16, 17 and 18 the
      driver sets in the system handler control register. */
  lemma HeaderEnableMasksMatchTargets(e: ExceptionKind)
    ensures HeaderEnableMask(e).Some? ==>
              && EnableTarget(e).Some?
              && EnableTarget(e).value.0 == SysHndCtrl
              && Bit(EnableTarget(e).value.1) == HeaderEnableMask(e).value
  {
  }

  /** The priority fields the driver writes are PRI1 bits 7:5, 15:13 and
      23:21 for the memory, bus and usage faults and PRI3 bits 31:29 for
      SysTick, and for each of them the header's mask is exactly the bits of
      that field. */
  lemma PriorityTargetsMatchHeader(e: ExceptionKind)
    ensures PriorityTarget(MemFault) == Some((SysPri1, 5))
    ensures PriorityTarget(BusFault) == Some((SysPri1, 13))
    ensures PriorityTarget(UsageFault) == Some((SysPri1, 21))
    ensures PriorityTarget(SysTick) == Some((SysPri3, 29))
    ensures PriorityTarget(e).Some? ==>
              && HeaderPriorityField(e).Some?
              && HeaderPriorityField(e).value.0 == FieldMask(PriorityTarget(e).value.1)
  {
  }

  /** The register SetPriorityIRQ rewrites is the one at the address the
      driver computes. */
  lemma SetPriorityIRQWritesAddressedRegister(r: Regs, irq: IrqNum, p: Priority)
    requires r.Valid()
    ensures PriorityRegAt(PriorityAddress(irq)).Some?
    ensures ChangesOnly(r, SetPriorityIRQ(r, irq, p), PriorityRegAt(PriorityAddress(irq)).value,
                        FieldMask(PriorityShift(irq)))
  {
  }

  /** Different handled kinds have different enable bits. */
  lemma EnableTargetsDistinct(e: ExceptionKind, d: ExceptionKind)
    requires e != d && EnableTarget(e).Some? && EnableTarget(d).Some?
    ensures EnableTarget(e).value != EnableTarget(d).value
  {
  }

  /** For a handled kind, EnableException is the OR of the kind's enable
      bit. */
  lemma EnableExceptionIsOrBit(r: Regs, e: ExceptionKind)
    requires r.Valid() && EnableTarget(e).Some?
    ensures EnableException(r, e) == OrBit(r, EnableTarget(e).value.0, EnableTarget(e).value.1)
  {
  }

  /** For a handled kind, DisableException is the AND-NOT of the kind's
      enable bit. */
  lemma DisableExceptionIsAndNotBit(r: Regs, e: ExceptionKind)
    requires r.Valid() && EnableTarget(e).Some?
    ensures DisableException(r, e) == AndNotBit(r, EnableTarget(e).value.0, EnableTarget(e).value.1)
  {
  }

  /** Disabling an exception right after enabling it is the same as only
      disabling it; in particular its enable bit reads 0. */
  lemma DisableAfterEnable(r: Regs, e: ExceptionKind)
    requires r.Valid()
    ensures DisableException(EnableException(r, e), e) == DisableException(r, e)
    ensures !IsExceptionEnabled(DisableException(EnableException(r, e), e), e)
  {
    if EnableTarget(e).Some? {
      var (x, i) := EnableTarget(e).value;
      EnableExceptionIsOrBit(r, e);
      DisableExceptionIsAndNotBit(EnableException(r, e), e);
      DisableExceptionIsAndNotBit(r, e);
      AndNotAfterOr(r, x, i);
    }
  }

  /** Enabling an exception right after disabling it is the same as only
      enabling it. */
  lemma EnableAfterDisable(r: Regs, e: ExceptionKind)
    requires r.Valid()
    ensures EnableException(DisableException(r, e), e) == EnableException(r, e)
    ensures IsExceptionEnabled(EnableException(DisableException(r, e), e), e) <==> EnableTarget(e).Some?
  {
    if EnableTarget(e).Some? {
      var (x, i) := EnableTarget(e).value;
      DisableExceptionIsAndNotBit(r, e);
      EnableExceptionIsOrBit(DisableException(r, e), e);
      EnableExceptionIsOrBit(r, e);
      OrAfterAndNot(r, x, i);
    }
  }

  /** After EnableException, a kind reads enabled exactly when it is the
      kind just enabled (and handled) or it read enabled before. */
  lemma EnableExceptionReadBack(r: Regs, e: ExceptionKind, d: ExceptionKind)
    requires r.Valid()
    ensures IsExceptionEnabled(EnableException(r, e), d)
            <==> (d == e && EnableTarget(e).Some?) || IsExceptionEnabled(r, d)
  {
    if d != e && EnableTarget(e).Some? && EnableTarget(d).Some? {
      var (x, i) := EnableTarget(e).value;
      var (y, j) := EnableTarget(d).value;
      EnableTargetsDistinct(e, d);
      OtherBitKept(r, EnableException(r, e), x, i, y, j);
    }
  }

  /** After DisableException, a kind reads enabled exactly when it is not the
      kind just disabled and it read enabled before. */
  lemma DisableExceptionReadBack(r: Regs, e: ExceptionKind, d: ExceptionKind)
    requires r.Valid()
    ensures IsExceptionEnabled(DisableException(r, e), d)
            <==> !(d == e && EnableTarget(e).Some?) && IsExceptionEnabled(r, d)
  {
    if d != e && EnableTarget(e).Some? && EnableTarget(d).Some? {
      var (x, i) := EnableTarget(e).value;
      var (y, j) := EnableTarget(d).value;
      EnableTargetsDistinct(e, d);
      OtherBitKept(r, DisableException(r, e), x, i, y, j);
    }
  }

  /** For a handled kind, SetPriorityException is the clear-then-OR of the
      kind's field at the header's position. */
  lemma SetPriorityExceptionIsFieldWrite(r: Regs, e: ExceptionKind, p: Priority)
    requires r.Valid() && PriorityTarget(e).Some?
    ensures SetPriorityException(r, e, p)
            == PutField(r, PriorityTarget(e).value.0, PriorityTarget(e).value.1, PriorityBits(p))
  {
  }

  /** After SetPriorityException, the kind's field reads the new priority and
      every other kind's field reads as before: in particular the three fault
      fields that share one register do not disturb each other. */
  lemma SetPriorityExceptionReadBack(r: Regs, e: ExceptionKind, p: Priority, d: ExceptionKind)
    requires r.Valid()
    ensures ExceptionPriority(SetPriorityException(r, e, p), d)
            == if d == e && PriorityTarget(e).Some? then Some(PriorityBits(p)) else ExceptionPriority(r, d)
  {
    var r' := SetPriorityException(r, e, p);
    if d != e && PriorityTarget(e).Some? && PriorityTarget(d).Some? {
      var (x, s) := PriorityTarget(e).value;
      var (y, t) := PriorityTarget(d).value;
      OtherFieldKept(r, r', x, s, y, t);
    }
  }

  /** Setting an exception's priority twice with the same value is the same
      as setting it once. */
  lemma SetPriorityExceptionIdempotent(r: Regs, e: ExceptionKind, p: Priority)
    requires r.Valid()
    ensures SetPriorityException(SetPriorityException(r, e, p), e, p) == SetPriorityException(r, e, p)
  {
    if PriorityTarget(e).Some? {
      var (x, s) := PriorityTarget(e).value;
      SetPriorityExceptionIsFieldWrite(r, e, p);
      SetPriorityExceptionIsFieldWrite(SetPriorityException(r, e, p), e, p);
      PutFieldIdempotent(r, x, s, PriorityBits(p));
    }
  }

  /** Of two successive priorities for the same exception, the last one
      wins. */
  lemma SetPriorityExceptionLastWins(r: Regs, e: ExceptionKind, p: Priority, q: Priority)
    requires r.Valid()
    ensures SetPriorityException(SetPriorityException(r, e, p), e, q) == SetPriorityException(r, e, q)
  {
    if PriorityTarget(e).Some? {
      var (x, s) := PriorityTarget(e).value;
      SetPriorityExceptionIsFieldWrite(r, e, p);
      SetPriorityExceptionIsFieldWrite(SetPriorityException(r, e, p), e, q);
      SetPriorityExceptionIsFieldWrite(r, e, q);
      PutFieldLastWins(r, x, s, PriorityBits(p), PriorityBits(q));
    }
  }
}

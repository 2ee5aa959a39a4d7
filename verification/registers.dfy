/** The optional value used for the SysTick callback slot and for the
    exception dispatch tables. */
module Options {
  datatype Option<+T> = None | Some(value: T)
}

/** The register file the two drivers read and write, as plain storage.

    The registers the drivers update bit by bit are named cells holding a
    `bv32`; a write stores the word and a read returns the last word stored.
    No hardware side effect (write-1-to-clear, clear-on-read) is modelled.
    Besides the registers, the file records the two core mask bits the
    drivers clear with `CPSIE I` and `CPSIE F`. The SysTick RELOAD and
    CURRENT registers, which the driver only assigns whole numbers, are kept
    as numbers with the timer state (module SysTick).
 */
module Registers {
  import opened Bits

  /** Number of NVIC interrupt set-enable / clear-enable banks the driver
      addresses (EN0..EN4 and DIS0..DIS4). */
  const EnableBanks: nat := 5

  /** Number of NVIC priority registers PRI0..PRI19: four IRQs per register,
      enough for every ordinal of the IRQ enumeration (0..77). */
  const PriorityRegs: nat := 20

  /** Base address of the NVIC priority registers; PRIk sits at `base + 4k`. */
  const PriorityBase: nat := 0xE000_E400

  /** The registers the two drivers touch. */
  datatype Reg =
    | En(bank: nat)        // NVIC_ENn: interrupt set-enable bank n
    | Dis(bank: nat)       // NVIC_DISn: interrupt clear-enable bank n
    | Pri(index: nat)      // NVIC_PRIn: priorities of IRQs 4n..4n+3
    | SysHndCtrl           // system handler control and state
    | SysPri1              // system handler priority 1 (mem, bus, usage fault)
    | SysPri3              // system handler priority 3 (SysTick)
    | StCtrl               // SysTick control and status

  /** Whether `x` names a register of the file. */
  predicate Known(x: Reg)
  {
    match x
    case En(n) => n < EnableBanks
    case Dis(n) => n < EnableBanks
    case Pri(n) => n < PriorityRegs
    case _ => true
  }

  /** The register file: one word per known register, and the state of the
      two global masks (true once the driver has cleared PRIMASK / FAULTMASK). */
  datatype Regs = Regs(cells: map<Reg, bv32>, irqUnmasked: bool, faultsUnmasked: bool)
  {
    /** Exactly the known registers are present. */
    ghost predicate Valid()
    {
      forall x: Reg :: x in cells <==> Known(x)
    }

    /** The word held by register `x`. */
    function Read(x: Reg): bv32
      requires Valid() && Known(x)
    {
      cells[x]
    }

    /** Store `v` in register `x`: reading `x` returns `v`, every other
        register and both masks are unchanged. */
    function Write(x: Reg, v: bv32): (r: Regs)
      requires Valid() && Known(x)
      ensures r.Valid()
      ensures r.Read(x) == v
      ensures SameExcept(this, r, {x})
      ensures SameMasks(this, r)
    {
      this.(cells := cells[x := v])
    }
  }

  /** Every register outside `xs` holds the same word in `a` and `b`. */
  ghost predicate SameExcept(a: Regs, b: Regs, xs: set<Reg>)
    requires a.Valid() && b.Valid()
  {
    forall y :: Known(y) && y !in xs ==> b.Read(y) == a.Read(y)
  }

  /** Both global masks are in the same state in `a` and `b`. */
  predicate SameMasks(a: Regs, b: Regs)
  {
    a.irqUnmasked == b.irqUnmasked && a.faultsUnmasked == b.faultsUnmasked
  }

  /** Going from `a` to `b`, at most the bits of `mask` in register `x`
      changed: every other register and every other bit of `x` are as they
      were. */
  ghost predicate ChangesOnly(a: Regs, b: Regs, x: Reg, mask: bv32)
    requires a.Valid() && b.Valid() && Known(x)
  {
    && SameExcept(a, b, {x})
    && Outside(b.Read(x), mask) == Outside(a.Read(x), mask)
  }

  /** Storing a word that agrees with the old one outside `mask` changes only
      the bits of `mask`. */
  lemma WriteChangesOnly(r: Regs, x: Reg, w: bv32, mask: bv32)
    requires r.Valid() && Known(x)
    requires Outside(w, mask) == Outside(r.Read(x), mask)
    ensures ChangesOnly(r, r.Write(x, w), x, mask)
  {
  }

  /** `x |= 1 << i` on the register file: bit `i` of `x` is set, nothing else
      changes. */
  function OrBit(r: Regs, x: Reg, i: bv5): (r': Regs)
    requires r.Valid() && Known(x)
    ensures r'.Valid()
    ensures IsSet(r'.Read(x), i)
    ensures ChangesOnly(r, r', x, Bit(i)) && SameMasks(r, r')
  {
    var w := SetBit(r.Read(x), i);
    SetBitEffect(r.Read(x), i);
    WriteChangesOnly(r, x, w, Bit(i));
    r.Write(x, w)
  }

  /** `x &= ~(1 << i)` on the register file: bit `i` of `x` is clear, nothing
      else changes. */
  function AndNotBit(r: Regs, x: Reg, i: bv5): (r': Regs)
    requires r.Valid() && Known(x)
    ensures r'.Valid()
    ensures !IsSet(r'.Read(x), i)
    ensures ChangesOnly(r, r', x, Bit(i))
    ensures SameMasks(r, r')
  {
    var w := ClearBit(r.Read(x), i);
    ClearBitEffect(r.Read(x), i);
    WriteChangesOnly(r, x, w, Bit(i));
    r.Write(x, w)
  }

  /** Clear-then-OR of the 3-bit field at shift `s` of register `x`: the field
      reads back `v`, nothing outside it changes. */
  function PutField(r: Regs, x: Reg, s: bv5, v: bv32): (r': Regs)
    requires r.Valid() && Known(x) && IsFieldShift(s) && v <= 7
    ensures r'.Valid()
    ensures Field(r'.Read(x), s) == v
    ensures ChangesOnly(r, r', x, FieldMask(s)) && SameMasks(r, r')
  {
    WriteFieldReadBack(r.Read(x), s, v);
    r.Write(x, WriteField(r.Read(x), s, v))
  }

  /** Writing a register twice keeps only the second word. */
  lemma WriteTwice(r: Regs, x: Reg, v: bv32, w: bv32)
    requires r.Valid() && Known(x)
    ensures r.Write(x, v).Write(x, w) == r.Write(x, w)
  {
  }

  /** Clearing a register bit right after setting it is the same as only
      clearing it. */
  lemma AndNotAfterOr(r: Regs, x: Reg, i: bv5)
    requires r.Valid() && Known(x)
    ensures AndNotBit(OrBit(r, x, i), x, i) == AndNotBit(r, x, i)
  {
    ClearAfterSet(r.Read(x), i);
    WriteTwice(r, x, SetBit(r.Read(x), i), ClearBit(r.Read(x), i));
  }

  /** Setting a register bit right after clearing it is the same as only
      setting it. */
  lemma OrAfterAndNot(r: Regs, x: Reg, i: bv5)
    requires r.Valid() && Known(x)
    ensures OrBit(AndNotBit(r, x, i), x, i) == OrBit(r, x, i)
  {
    SetAfterClear(r.Read(x), i);
    WriteTwice(r, x, ClearBit(r.Read(x), i), SetBit(r.Read(x), i));
  }

  /** Setting a register bit twice is the same as setting it once. */
  lemma OrBitIdempotent(r: Regs, x: Reg, i: bv5)
    requires r.Valid() && Known(x)
    ensures OrBit(OrBit(r, x, i), x, i) == OrBit(r, x, i)
  {
    SetBitIdempotent(r.Read(x), i);
    WriteTwice(r, x, SetBit(r.Read(x), i), SetBit(r.Read(x), i));
  }

  /** Writing a field twice with the same value is the same as writing it
      once. */
  lemma PutFieldIdempotent(r: Regs, x: Reg, s: bv5, v: bv32)
    requires r.Valid() && Known(x) && IsFieldShift(s) && v <= 7
    ensures PutField(PutField(r, x, s, v), x, s, v) == PutField(r, x, s, v)
  {
    var w := WriteField(r.Read(x), s, v);
    WriteFieldIdempotent(r.Read(x), s, v);
    WriteTwice(r, x, w, WriteField(w, s, v));
  }

  /** Of two successive writes of the same field, the last one wins. */
  lemma PutFieldLastWins(r: Regs, x: Reg, s: bv5, v: bv32, w: bv32)
    requires r.Valid() && Known(x) && IsFieldShift(s) && v <= 7 && w <= 7
    ensures PutField(PutField(r, x, s, v), x, s, w) == PutField(r, x, s, w)
  {
    var u := WriteField(r.Read(x), s, v);
    WriteFieldLastWins(r.Read(x), s, v, w);
    WriteTwice(r, x, u, WriteField(u, s, w));
  }

  /** A change confined to bit `i` of register `x` leaves bit `j` of any
      register `y`, unless it is the same bit of the same register. */
  lemma OtherBitKept(a: Regs, b: Regs, x: Reg, i: bv5, y: Reg, j: bv5)
    requires a.Valid() && b.Valid() && Known(x) && Known(y) && (x, i) != (y, j)
    requires ChangesOnly(a, b, x, Bit(i))
    ensures IsSet(b.Read(y), j) <==> IsSet(a.Read(y), j)
  {
    if x == y {
      var u, w := b.Read(x), a.Read(x);
      assert Outside(u, Bit(i)) == Outside(w, Bit(i));
      AgreeOutsideBit(u, w, i, j);
    } else {
      assert b.Read(y) == a.Read(y);
    }
  }

  /** A change confined to the field at `s` of register `x` leaves the field
      at `t` of any register `y`, unless it is the same field. */
  lemma OtherFieldKept(a: Regs, b: Regs, x: Reg, s: bv5, y: Reg, t: bv5)
    requires a.Valid() && b.Valid() && Known(x) && Known(y) && (x, s) != (y, t)
    requires IsFieldShift(s) && IsFieldShift(t)
    requires ChangesOnly(a, b, x, FieldMask(s))
    ensures Field(b.Read(y), t) == Field(a.Read(y), t)
  {
    if x == y {
      var u, w := b.Read(x), a.Read(x);
      assert Outside(u, FieldMask(s)) == Outside(w, FieldMask(s));
      AgreeOutsideField(u, w, s, t);
    } else {
      assert b.Read(y) == a.Read(y);
    }
  }
}

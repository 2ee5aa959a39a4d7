/** Single bits and 3-bit fields of a 32-bit register word.

    The drivers manipulate registers in two ways only: they OR in or AND out a
    single bit, and they rewrite a 3-bit priority field by clearing the field's
    mask and then ORing in the new value. This module names those two moves and
    proves what they do to the word.

    Bit positions and field shifts are `bv5` values, so that every shift is a
    bit-vector shift; `ToIndex` converts a position computed with integers.
 */
module Bits {

  /** A bit position 0..31 converted from an integer. */
  function ToIndex(n: nat): (i: bv5)
    requires n < 32
    ensures i as int == n
  {
    n as bv5
  }

  /** Distinct integer positions give distinct bit positions. */
  lemma ToIndexInjective(a: nat, b: nat)
    requires a < 32 && b < 32
    ensures ToIndex(a) == ToIndex(b) <==> a == b
  {
  }

  /** The word with only bit `i` set (`1 << i` in the drivers). */
  function Bit(i: bv5): bv32
  {
    1 << i
  }

  /** Whether bit `i` of `x` is set. */
  predicate IsSet(x: bv32, i: bv5)
  {
    x & Bit(i) != 0
  }

  /** The bits of `x` outside `mask`: what a write confined to `mask` must
      leave alone. */
  function Outside(x: bv32, mask: bv32): bv32
  {
    x & !mask
  }

  /** `x |= 1 << i`. */
  function SetBit(x: bv32, i: bv5): bv32
  {
    x | Bit(i)
  }

  /** `x &= ~(1 << i)`. */
  function ClearBit(x: bv32, i: bv5): bv32
  {
    x & !Bit(i)
  }

  /** Setting bit `i` makes it 1 and keeps every other bit. */
  lemma SetBitEffect(x: bv32, i: bv5)
    ensures IsSet(SetBit(x, i), i)
    ensures Outside(SetBit(x, i), Bit(i)) == Outside(x, Bit(i))
  {
    SetBitSets(x, i);
    SetBitFrame(x, i);
  }

  lemma SetBitSets(x: bv32, i: bv5)
    ensures IsSet(SetBit(x, i), i)
  {
  }

  lemma SetBitFrame(x: bv32, i: bv5)
    ensures Outside(SetBit(x, i), Bit(i)) == Outside(x, Bit(i))
  {
  }

  /** Clearing bit `i` makes it 0 and keeps every other bit. */
  lemma ClearBitEffect(x: bv32, i: bv5)
    ensures !IsSet(ClearBit(x, i), i)
    ensures Outside(ClearBit(x, i), Bit(i)) == Outside(x, Bit(i))
  {
    ClearBitClears(x, i);
    ClearBitFrame(x, i);
  }

  lemma ClearBitClears(x: bv32, i: bv5)
    ensures !IsSet(ClearBit(x, i), i)
  {
  }

  lemma ClearBitFrame(x: bv32, i: bv5)
    ensures Outside(ClearBit(x, i), Bit(i)) == Outside(x, Bit(i))
  {
  }

  /** Two distinct single bits never overlap. */
  lemma DistinctBits(a: bv5, b: bv5)
    requires a != b
    ensures Bit(a) & Bit(b) == 0
  {
  }

  /** Clearing bit `a` does not change whether any other bit `b` is set. */
  lemma ClearBitKeepsOthers(x: bv32, a: bv5, b: bv5)
    requires a != b
    ensures IsSet(ClearBit(x, a), b) <==> IsSet(x, b)
  {
    DistinctBits(a, b);
  }

  /** Clearing a bit right after setting it is the same as only clearing it. */
  lemma ClearAfterSet(x: bv32, i: bv5)
    ensures ClearBit(SetBit(x, i), i) == ClearBit(x, i)
  {
  }

  /** Setting a bit right after clearing it is the same as only setting it. */
  lemma SetAfterClear(x: bv32, i: bv5)
    ensures SetBit(ClearBit(x, i), i) == SetBit(x, i)
  {
    ClearBitFrame(x, i);
    SetBitDependsOutside(ClearBit(x, i), x, i);
  }

  /** Setting bit `i` forgets what bit `i` held before. */
  lemma SetBitDependsOutside(y: bv32, z: bv32, i: bv5)
    requires Outside(y, Bit(i)) == Outside(z, Bit(i))
    ensures SetBit(y, i) == SetBit(z, i)
  {
  }

  /** Setting a bit twice is the same as setting it once. */
  lemma SetBitIdempotent(x: bv32, i: bv5)
    ensures SetBit(SetBit(x, i), i) == SetBit(x, i)
  {
  }

  /** Two words that agree outside bit `a` agree on every other bit `b`. */
  lemma AgreeOutsideBit(x: bv32, y: bv32, a: bv5, b: bv5)
    requires Outside(x, Bit(a)) == Outside(y, Bit(a)) && a != b
    ensures IsSet(x, b) <==> IsSet(y, b)
  {
  }

  /** The shifts at which the drivers place a 3-bit priority field: bits 7:5,
      15:13, 23:21 and 31:29, the top three bits of each byte. */
  predicate IsFieldShift(s: bv5)
  {
    s == 5 || s == 13 || s == 21 || s == 29
  }

  /** The mask of the 3-bit field whose lowest bit is `s` (`7 << s`). */
  function FieldMask(s: bv5): bv32
  {
    7 << s
  }

  /** The 3-bit field of `x` whose lowest bit is `s`: `(x >> s) & 7`. */
  function Field(x: bv32, s: bv5): (f: bv32)
    ensures f <= 7
  {
    (x >> s) & 7
  }

  /** The drivers' read-modify-write of a priority field: clear the field's
      mask, then OR in `v << s`. */
  function WriteField(x: bv32, s: bv5, v: bv32): bv32
  {
    (x & !(7 << s)) | (v << s)
  }

  /** Reading a field back returns the 3-bit value written into it, and no
      bit outside the field moves. */
  lemma WriteFieldReadBack(x: bv32, s: bv5, v: bv32)
    requires IsFieldShift(s) && v <= 7
    ensures Field(WriteField(x, s, v), s) == v
    ensures Outside(WriteField(x, s, v), FieldMask(s)) == Outside(x, FieldMask(s))
  {
    WriteFieldValue(x, s, v);
    WriteFieldFrame(x, s, v);
  }

  lemma WriteFieldValue(x: bv32, s: bv5, v: bv32)
    requires IsFieldShift(s) && v <= 7
    ensures Field(WriteField(x, s, v), s) == v
  {
    if s == 5 {
    } else if s == 13 {
    } else if s == 21 {
    } else {
    }
  }

  lemma WriteFieldFrame(x: bv32, s: bv5, v: bv32)
    requires IsFieldShift(s) && v <= 7
    ensures Outside(WriteField(x, s, v), FieldMask(s)) == Outside(x, FieldMask(s))
  {
    if s == 5 {
    } else if s == 13 {
    } else if s == 21 {
    } else {
    }
  }

  /** Writing a field a second time with the same value changes nothing. */
  lemma WriteFieldIdempotent(x: bv32, s: bv5, v: bv32)
    requires IsFieldShift(s) && v <= 7
    ensures WriteField(WriteField(x, s, v), s, v) == WriteField(x, s, v)
  {
    WriteFieldLastWins(x, s, v, v);
  }

  /** Of two successive writes of a 3-bit value into a field, the last wins. */
  lemma WriteFieldLastWins(x: bv32, s: bv5, v: bv32, w: bv32)
    requires IsFieldShift(s) && v <= 7
    ensures WriteField(WriteField(x, s, v), s, w) == WriteField(x, s, w)
  {
    if s == 5 {
      LastWinsAt5(x, v, w);
    } else if s == 13 {
      LastWinsAt13(x, v, w);
    } else if s == 21 {
      LastWinsAt21(x, v, w);
    } else {
      LastWinsAt29(x, v, w);
    }
  }

  /* The last-wins identity at each of the four shifts, stated with the shift
     as a literal so that the solver never shifts by an unknown amount. */

  lemma LastWinsAt5(x: bv32, v: bv32, w: bv32)
    requires v <= 7
    ensures WriteField(WriteField(x, 5, v), 5, w) == WriteField(x, 5, w)
  {
  }

  lemma LastWinsAt13(x: bv32, v: bv32, w: bv32)
    requires v <= 7
    ensures WriteField(WriteField(x, 13, v), 13, w) == WriteField(x, 13, w)
  {
  }

  lemma LastWinsAt21(x: bv32, v: bv32, w: bv32)
    requires v <= 7
    ensures WriteField(WriteField(x, 21, v), 21, w) == WriteField(x, 21, w)
  {
  }

  lemma LastWinsAt29(x: bv32, v: bv32, w: bv32)
    requires v <= 7
    ensures WriteField(WriteField(x, 29, v), 29, w) == WriteField(x, 29, w)
  {
  }

  /** Writing one field leaves the value of every other field as it was. */
  lemma WriteFieldKeepsOtherField(x: bv32, s: bv5, t: bv5, v: bv32)
    requires IsFieldShift(s) && IsFieldShift(t) && s != t && v <= 7
    ensures Field(WriteField(x, s, v), t) == Field(x, t)
  {
    WriteFieldFrame(x, s, v);
    AgreeOutsideField(WriteField(x, s, v), x, s, t);
  }

  /** Two words that agree outside one field agree on every other field. */
  lemma AgreeOutsideField(x: bv32, y: bv32, s: bv5, t: bv5)
    requires IsFieldShift(s) && IsFieldShift(t) && s != t
    requires Outside(x, FieldMask(s)) == Outside(y, FieldMask(s))
    ensures Field(x, t) == Field(y, t)
  {
    if s == 5 {
    } else if s == 13 {
    } else if s == 21 {
    } else {
    }
  }
}

/** Bytes and the 16-bit accumulator of X-TrueType's bit blitter, bit by bit; bit 0 is the leftmost. */
module XttBits {

  function Bit(b: bv8, i: nat): bool
    requires i < 8
  {
    match i
    case 0 => b & 0x80 != 0
    case 1 => b & 0x40 != 0
    case 2 => b & 0x20 != 0
    case 3 => b & 0x10 != 0
    case 4 => b & 0x08 != 0
    case 5 => b & 0x04 != 0
    case 6 => b & 0x02 != 0
    case 7 => b & 0x01 != 0
  }

  lemma OrBit(a: bv8, b: bv8, i: nat)
    requires i < 8
    ensures Bit(a | b, i) <==> Bit(a, i) || Bit(b, i)
  {
  }

  function Shr(v: bv8, s: nat): bv8
    requires s <= 8
  {
    v >> s
  }

  function Shl(v: bv8, s: nat): bv8
    requires s <= 8
  {
    v << s
  }

  lemma ShrBit(v: bv8, s: nat, i: nat)
    requires s <= 8 && i < 8
    ensures Bit(Shr(v, s), i) <==> i >= s && Bit(v, i - s)
  {
    match s {
      case 0 => case 1 => case 2 => case 3 => case 4 => case 5 => case 6 => case 7 => case 8 =>
    }
  }

  lemma ShlBit(v: bv8, s: nat, i: nat)
    requires s <= 8 && i < 8
    ensures Bit(Shl(v, s), i) <==> i + s < 8 && Bit(v, i + s)
  {
    match s {
      case 0 => case 1 => case 2 => case 3 => case 4 => case 5 => case 6 => case 7 => case 8 =>
    }
  }

  // val & ~(0xFF >> count)
  function Top(v: bv8, count: nat): bv8
    requires count <= 8
  {
    v & !Shr(0xFF, count)
  }

  lemma AndNotBit(a: bv8, b: bv8, i: nat)
    requires i < 8
    ensures Bit(a & !b, i) <==> Bit(a, i) && !Bit(b, i)
  {
  }

  lemma TopBit(v: bv8, count: nat, i: nat)
    requires count <= 8 && i < 8
    ensures Bit(Top(v, count), i) <==> i < count && Bit(v, i)
  {
    AndNotBit(v, Shr(0xFF, count), i);
    ShrBit(0xFF, count, i);
    if i >= count { assert Bit(0xFF, i - count); }
  }

  /** The low 16 bits of acc, as two bytes; what is shifted out above them is never looked at. */
  datatype Acc = Acc(hi: bv8, lo: bv8)

  const CLEAR := Acc(0, 0)

  predicate AccBit(a: Acc, i: nat)
    requires i < 16
  {
    if i < 8 then Bit(a.hi, i) else Bit(a.lo, i - 8)
  }

  lemma ClearBit(i: nat)
    requires i < 16
    ensures !AccBit(CLEAR, i)
  {
  }

  // acc <<= n
  function Drop(a: Acc, n: nat): Acc
    requires n <= 8
  {
    Acc(Shl(a.hi, n) | Shr(a.lo, 8 - n), Shl(a.lo, n))
  }

  lemma DropBit(a: Acc, n: nat, i: nat)
    requires n <= 8 && i < 16
    ensures AccBit(Drop(a, n), i) <==> i + n < 16 && AccBit(a, i + n)
  {
    hide Bit, Shl, Shr;
    if i < 8 {
      OrBit(Shl(a.hi, n), Shr(a.lo, 8 - n), i);
      ShlBit(a.hi, n, i);
      ShrBit(a.lo, 8 - n, i);
    } else {
      ShlBit(a.lo, n, i - 8);
    }
  }

  // acc |= byte << (8 - loaded)
  function Load(a: Acc, b: bv8, loaded: nat): Acc
    requires loaded <= 8
  {
    Acc(a.hi | Shr(b, loaded), a.lo | Shl(b, 8 - loaded))
  }

  lemma LoadBit(a: Acc, b: bv8, loaded: nat, i: nat)
    requires loaded <= 8 && i < 16
    ensures AccBit(Load(a, b, loaded), i) <==> AccBit(a, i) || (loaded <= i < loaded + 8 && Bit(b, i - loaded))
  {
    hide Bit, Shl, Shr;
    if i < 8 {
      OrBit(a.hi, Shr(b, loaded), i);
      ShrBit(b, loaded, i);
    } else {
      OrBit(a.lo, Shl(b, 8 - loaded), i - 8);
      ShlBit(b, 8 - loaded, i - 8);
    }
  }

  // (TT_Byte)(acc >> 8)
  function High(a: Acc): bv8 { a.hi }
}

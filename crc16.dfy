/** The checksum of a P1 telegram: CRC-16 with the reflected polynomial
    0xA001 and initial value 0 (CRC-16/ARC, "IBM"), computed one byte at a
    time with eight shifts per byte, as `P1Telegram._validate_checksum` does.
    Python's unbounded `remainder` is held in a bv32 register; the contracts
    below show that it never leaves 16 bits, so the register and the Python
    integer agree. */
module Crc16 {
  import opened Text

  const Poly: bv32 := 0xA001

  /** One pass of the inner loop: shift right, folding in the polynomial
      when the bit shifted out was set. */
  function Shift(r: bv32): bv32
  {
    (r >> 1) ^ ((0 - (r & 1)) & Poly)
  }

  function Shifts(r: bv32, n: nat): bv32
  {
    if n == 0 then r else Shift(Shifts(r, n - 1))
  }

  /** A number below 16 as the low four bits of a register. */
  function NibbleBits(n: nat): (x: bv32)
    requires n < 16
    ensures x < 16
  {
    match n
    case 0 => 0x0 case 1 => 0x1 case 2 => 0x2 case 3 => 0x3
    case 4 => 0x4 case 5 => 0x5 case 6 => 0x6 case 7 => 0x7
    case 8 => 0x8 case 9 => 0x9 case 10 => 0xA case 11 => 0xB
    case 12 => 0xC case 13 => 0xD case 14 => 0xE case _ => 0xF
  }

  /** The number held in the low four bits of a register. */
  function Nibble(x: bv32): (v: nat)
    ensures v < 16
  {
    (if x & 8 != 0 then 8 else 0) + (if x & 4 != 0 then 4 else 0)
      + (if x & 2 != 0 then 2 else 0) + (if x & 1 != 0 then 1 else 0)
  }

  lemma NibbleOfBits(n: nat)
    requires n < 16
    ensures Nibble(NibbleBits(n)) == n
  {
  }

  lemma BitsOfNibble(x: bv32)
    ensures NibbleBits(Nibble(x)) == x & 0xF
  {
  }

  lemma NibbleInjective(x: bv32, y: bv32)
    requires Nibble(x) == Nibble(y)
    ensures x & 0xF == y & 0xF
  {
    BitsOfNibble(x);
    BitsOfNibble(y);
  }

  /** A byte as the low eight bits of the register, the way Python's
      `remainder ^= i` sees the integer `i`. */
  function ByteBits(b: byte): (x: bv32)
    ensures x < 0x100
  {
    (NibbleBits(b / 16) << 4) | NibbleBits(b % 16)
  }

  lemma ByteNibbles(b: byte)
    ensures ByteBits(b) & 0xF == NibbleBits(b % 16)
    ensures (ByteBits(b) >> 4) & 0xF == NibbleBits(b / 16)
  {
    var hi, lo := NibbleBits(b / 16), NibbleBits(b % 16);
    SplitByte(hi, lo);
  }

  lemma SplitByte(hi: bv32, lo: bv32)
    requires hi < 16 && lo < 16
    ensures ((hi << 4) | lo) & 0xF == lo && (((hi << 4) | lo) >> 4) & 0xF == hi
  {
  }

  lemma ByteBitsInjective(p: byte, q: byte)
    requires ByteBits(p) == ByteBits(q)
    ensures p == q
  {
    ByteNibbles(p);
    ByteNibbles(q);
    NibbleOfBits(p % 16);
    NibbleOfBits(q % 16);
    NibbleOfBits(p / 16);
    NibbleOfBits(q / 16);
  }

  /** One pass of the outer loop: fold in byte `b`, then shift eight times. */
  function Update(r: bv32, b: byte): bv32
  {
    Shifts(r ^ ByteBits(b), 8)
  }

  /** The remainder after every byte of `data` has been folded in, starting
      from 0; it always fits in 16 bits. */
  function Crc(data: bytes): (r: bv32)
    ensures r < 0x10000
  {
    if data == [] then 0
    else
      var prev := Crc(data[..|data| - 1]);
      UpdateBounded(prev, data[|data| - 1]);
      Update(prev, data[|data| - 1])
  }

  /** The number held in the low 16 bits of a register, four bits at a
      time: the Python integer `remainder` stands for. */
  function RegValue(r: bv32): (v: nat)
    ensures v < 0x10000
  {
    Nibble(r) + 16 * Nibble(r >> 4) + 256 * Nibble(r >> 8) + 4096 * Nibble(r >> 12)
  }

  /** The remainder as the Python integer it is. */
  function CrcValue(data: bytes): (v: nat)
    ensures v < 0x10000
  {
    RegValue(Crc(data))
  }

  /** Four base-16 digits determine their number. */
  lemma PlaceValues(n0: nat, n1: nat, n2: nat, n3: nat, m0: nat, m1: nat, m2: nat, m3: nat)
    requires n0 < 16 && n1 < 16 && n2 < 16 && n3 < 16
    requires m0 < 16 && m1 < 16 && m2 < 16 && m3 < 16
    requires n0 + 16 * n1 + 256 * n2 + 4096 * n3 == m0 + 16 * m1 + 256 * m2 + 4096 * m3
    ensures n0 == m0 && n1 == m1 && n2 == m2 && n3 == m3
  {
    LowDigit(n0, n1 + 16 * n2 + 256 * n3, m0, m1 + 16 * m2 + 256 * m3);
    LowDigit(n1, n2 + 16 * n3, m1, m2 + 16 * m3);
    LowDigit(n2, n3, m2, m3);
  }

  /** The last base-16 digit and the rest determine each other's partner. */
  lemma LowDigit(d: nat, q: nat, e: nat, p: nat)
    requires d < 16 && e < 16 && d + 16 * q == e + 16 * p
    ensures d == e && q == p
  {
  }

  lemma NibblesJoin(a: bv32, b: bv32)
    requires a < 0x10000 && b < 0x10000
    requires a & 0xF == b & 0xF && (a >> 4) & 0xF == (b >> 4) & 0xF
    requires (a >> 8) & 0xF == (b >> 8) & 0xF && (a >> 12) & 0xF == (b >> 12) & 0xF
    ensures a == b
  {
  }

  /** Two 16-bit registers holding the same number are equal. */
  lemma RegValueInjective(a: bv32, b: bv32)
    requires a < 0x10000 && b < 0x10000 && RegValue(a) == RegValue(b)
    ensures a == b
  {
    SameDigits(a, b);
    SameNibbles(a, b);
    NibblesJoin(a, b);
  }

  lemma SameDigits(a: bv32, b: bv32)
    requires RegValue(a) == RegValue(b)
    ensures Nibble(a) == Nibble(b) && Nibble(a >> 4) == Nibble(b >> 4)
    ensures Nibble(a >> 8) == Nibble(b >> 8) && Nibble(a >> 12) == Nibble(b >> 12)
  {
    PlaceValues(Nibble(a), Nibble(a >> 4), Nibble(a >> 8), Nibble(a >> 12),
                Nibble(b), Nibble(b >> 4), Nibble(b >> 8), Nibble(b >> 12));
  }

  lemma SameNibbles(a: bv32, b: bv32)
    requires Nibble(a) == Nibble(b) && Nibble(a >> 4) == Nibble(b >> 4)
    requires Nibble(a >> 8) == Nibble(b >> 8) && Nibble(a >> 12) == Nibble(b >> 12)
    ensures a & 0xF == b & 0xF && (a >> 4) & 0xF == (b >> 4) & 0xF
    ensures (a >> 8) & 0xF == (b >> 8) & 0xF && (a >> 12) & 0xF == (b >> 12) & 0xF
  {
    NibbleInjective(a, b);
    NibbleInjective(a >> 4, b >> 4);
    NibbleInjective(a >> 8, b >> 8);
    NibbleInjective(a >> 12, b >> 12);
  }

  /** The CRC of the single byte `!` (0x21), the whole of a bare checksum
      line. */
  lemma BangCrc()
    ensures CrcValue([33]) == 0x18c0
  {
    assert [33][..0] == [];
    assert Crc([33]) == Update(0, 33);
    assert ByteBits(33) == 0x21;
    assert Shifts(0x21, 4) == 0xcc03;
    assert Shifts(0x21, 8) == 0x18c0;
  }

  /** Shift is what one pass of the inner loop does to `remainder`. */
  lemma ShiftIsLoopBody(r: bv32)
    ensures Shift(r) == if r & 1 == 1 then (r >> 1) ^ Poly else r >> 1
  {
    var m := 0 - (r & 1);
    if r & 1 == 1 {
      assert m == 0xFFFF_FFFF;
      assert m & Poly == Poly;
    } else {
      assert m == 0;
      assert m & Poly == 0;
    }
  }

  lemma ShiftBounded(r: bv32)
    requires r < 0x10000
    ensures Shift(r) < 0x10000
  {
  }

  lemma {:induction false} ShiftsBounded(r: bv32, n: nat)
    requires r < 0x10000
    ensures Shifts(r, n) < 0x10000
  {
    if n > 0 {
      ShiftsBounded(r, n - 1);
      ShiftBounded(Shifts(r, n - 1));
    }
  }

  lemma UpdateBounded(r: bv32, b: byte)
    requires r < 0x10000
    ensures Update(r, b) < 0x10000
  {
    assert r ^ ByteBits(b) < 0x10000;
    ShiftsBounded(r ^ ByteBits(b), 8);
  }

  /** The nested loops of `_validate_checksum`. */
  method ComputeCrc(data: bytes) returns (remainder: bv32)
    ensures remainder == Crc(data)
    ensures remainder < 0x10000
  {
    remainder := 0;
    for i := 0 to |data|
      invariant remainder == Crc(data[..i])
    {
      remainder := remainder ^ ByteBits(data[i]);
      ghost var folded := remainder;
      for k := 0 to 8
        invariant remainder == Shifts(folded, k)
      {
        ShiftIsLoopBody(remainder);
        if remainder & 1 == 1 {
          remainder := remainder >> 1;
          remainder := remainder ^ Poly;
        } else {
          remainder := remainder >> 1;
        }
      }
      assert data[..i + 1][..i] == data[..i];
    }
    assert data[..|data|] == data;
  }

  // ---------------------------------------------------------------------
  // Error detection: changing one byte always changes the checksum

  /** On 16-bit registers a shift loses nothing: the bit shifted out is
      recovered from bit 15, which only the polynomial can set. */
  lemma ShiftInjective(a: bv32, b: bv32)
    requires a < 0x10000 && b < 0x10000 && Shift(a) == Shift(b)
    ensures a == b
  {
  }

  lemma {:induction false} ShiftsInjective(a: bv32, b: bv32, n: nat)
    requires a < 0x10000 && b < 0x10000 && Shifts(a, n) == Shifts(b, n)
    ensures a == b
  {
    if n > 0 {
      ShiftsBounded(a, n - 1);
      ShiftsBounded(b, n - 1);
      ShiftInjective(Shifts(a, n - 1), Shifts(b, n - 1));
      ShiftsInjective(a, b, n - 1);
    }
  }

  /** Folding in a byte keeps two registers apart, and sets two equal
      registers apart when the bytes differ. */
  lemma FoldSeparates(cx: bv32, cy: bv32, p: byte, q: byte)
    requires cx < 0x10000 && cy < 0x10000
    requires cx != cy || p != q
    requires cx == cy || p == q
    ensures Update(cx, p) != Update(cy, q)
  {
    var x, y := ByteBits(p), ByteBits(q);
    if p != q && x == y {
      ByteBitsInjective(p, q);
    }
    XorSeparates(cx, cy, x, y);
    if Shifts(cx ^ x, 8) == Shifts(cy ^ y, 8) {
      ShiftsInjective(cx ^ x, cy ^ y, 8);
    }
  }

  lemma XorSeparates(cx: bv32, cy: bv32, x: bv32, y: bv32)
    requires cx < 0x10000 && cy < 0x10000 && x < 0x100 && y < 0x100
    requires cx != cy || x != y
    requires cx == cy || x == y
    ensures cx ^ x != cy ^ y && cx ^ x < 0x10000 && cy ^ y < 0x10000
  {
  }

  /** Once the changed byte has been folded in, every longer prefix of the
      two inputs has different remainders. */
  lemma {:induction false} PrefixCrcsDiffer(x: bytes, y: bytes, i: nat, n: nat)
    requires |x| == |y| && i < n <= |x| && x[i] != y[i]
    requires forall j | 0 <= j < |x| && j != i :: x[j] == y[j]
    ensures Crc(x[..n]) != Crc(y[..n])
  {
    assert x[..n][..n - 1] == x[..n - 1];
    assert y[..n][..n - 1] == y[..n - 1];
    if n - 1 == i {
      assert x[..i] == y[..i];
    } else {
      PrefixCrcsDiffer(x, y, i, n - 1);
    }
    FoldSeparates(Crc(x[..n - 1]), Crc(y[..n - 1]), x[n - 1], y[n - 1]);
  }

  /** Two byte strings that differ in exactly one position have different
      checksums. */
  lemma SingleByteChangeDetected(x: bytes, y: bytes, i: nat)
    requires |x| == |y| && i < |x| && x[i] != y[i]
    requires forall j | 0 <= j < |x| && j != i :: x[j] == y[j]
    ensures Crc(x) != Crc(y)
  {
    PrefixCrcsDiffer(x, y, i, |x|);
    assert x[..|x|] == x && y[..|y|] == y;
  }

  /** The same, for the remainders as numbers. */
  lemma SingleByteChangeChangesValue(x: bytes, y: bytes, i: nat)
    requires |x| == |y| && i < |x| && x[i] != y[i]
    requires forall j | 0 <= j < |x| && j != i :: x[j] == y[j]
    ensures CrcValue(x) != CrcValue(y)
  {
    SingleByteChangeDetected(x, y, i);
    if CrcValue(x) == CrcValue(y) {
      RegValueInjective(Crc(x), Crc(y));
    }
  }

  // ---------------------------------------------------------------------
  // The four hex digits that carry a checksum in a telegram

  /** A 16-bit value as four upper-case hex digits, the way meters write it. */
  function Hex4(v: nat): (s: string)
    requires v < 0x10000
    ensures |s| == 4 && forall k | 0 <= k < 4 :: IsHexDigit(s[k])
  {
    [HexChar(v / 0x1000), HexChar(v / 0x100 % 16), HexChar(v / 16 % 16), HexChar(v % 16)]
  }

  lemma Hex4Digits(v: nat)
    requires v < 0x10000
    ensures QuadHex(Hex4(v)) == v
  {
    var q1 := v / 16;
    var q2 := q1 / 16;
    var q3 := q2 / 16;
    assert v / 0x100 == q2 && v / 0x1000 == q3;
    assert q2 * 16 + q1 % 16 == q1;
    assert q3 * 16 + q2 % 16 == q2;
  }

}

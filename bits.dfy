/** Natural numbers read as bit strings: powers of two, single bits and the
    bitwise operations the IR offers, each defined one bit at a time from the
    least significant end. */
module Bits {
  type OneBit = k: nat | k < 2
  type Byte = k: nat | k < 0x100
  type Word = k: nat | k < 0x1_0000

  /** 2 to the power `k`, for the bit positions of a 16-bit value. */
  function Pow2(k: nat): (p: nat)
    ensures p >= 1
  {
    if k == 0 then 0x1 else if k == 1 then 0x2 else if k == 2 then 0x4 else if k == 3 then 0x8
    else if k == 4 then 0x10 else if k == 5 then 0x20 else if k == 6 then 0x40 else if k == 7 then 0x80
    else if k == 8 then 0x100 else if k == 9 then 0x200 else if k == 10 then 0x400 else if k == 11 then 0x800
    else if k == 12 then 0x1000 else if k == 13 then 0x2000 else if k == 14 then 0x4000 else if k == 15 then 0x8000
    else 0x1_0000
  }

  /** Bit `j` of `k`. */
  function BitAt(k: nat, j: nat): OneBit
  {
    if j == 0 then k % 2 else BitAt(k / 2, j - 1)
  }

  /** Bitwise operations on natural numbers, bit by bit from the lowest. */
  function BitAnd(x: nat, y: nat): nat
  {
    if x == 0 || y == 0 then 0 else 2 * BitAnd(x / 2, y / 2) + (if x % 2 == 1 && y % 2 == 1 then 1 else 0)
  }

  function BitOr(x: nat, y: nat): nat
  {
    if x == 0 then y else if y == 0 then x else 2 * BitOr(x / 2, y / 2) + (if x % 2 == 1 || y % 2 == 1 then 1 else 0)
  }

  function BitXor(x: nat, y: nat): nat
  {
    if x == 0 then y else if y == 0 then x else 2 * BitXor(x / 2, y / 2) + (if x % 2 != y % 2 then 1 else 0)
  }

  /** `k` with bit `j` replaced by bit 0 of `bit`. */
  function SetBit(k: nat, j: nat, bit: nat): nat
  {
    if j == 0 then k - k % 2 + bit % 2 else 2 * SetBit(k / 2, j - 1, bit) + k % 2
  }

  /** The lowest bit of `b + 2 * r` is `b`; the bits above it are those of `r`. */
  lemma PeelBit(b: OneBit, r: nat)
    ensures BitAt(b + 2 * r, 0) == b
    ensures forall j: nat :: BitAt(b + 2 * r, j + 1) == BitAt(r, j)
  {
    assert (b + 2 * r) / 2 == r;
  }

  /** The number whose bits, least significant first, are `bits`. */
  function FromBits(bits: seq<OneBit>): nat
  {
    if |bits| == 0 then 0 else bits[0] + 2 * FromBits(bits[1..])
  }

  /** Bit `j` of `FromBits(bits)` is `bits[j]`. */
  lemma {:induction false} FromBitsAt(bits: seq<OneBit>, j: nat)
    requires j < |bits|
    ensures BitAt(FromBits(bits), j) == bits[j]
    decreases j
  {
    PeelBit(bits[0], FromBits(bits[1..]));
    if j > 0 {
      FromBitsAt(bits[1..], j - 1);
    }
  }

  /** Setting the top bit of a (j + 1)-bit number keeps its low j bits. */
  lemma {:induction false} SetBitTop(k: nat, j: nat, bit: nat)
    requires j <= 16 && k < 2 * Pow2(j)
    ensures SetBit(k, j, bit) == k % Pow2(j) + Pow2(j) * (bit % 2)
    decreases j
  {
    if j > 0 {
      var q := Pow2(j - 1);
      assert Pow2(j) == 2 * q;
      SetBitTop(k / 2, j - 1, bit);
      ModDouble(k, q);
      var lo := (k / 2) % q;
      assert SetBit(k, j, bit) == 2 * (lo + q * (bit % 2)) + k % 2;
      if bit % 2 == 0 {
        assert SetBit(k, j, bit) == 2 * lo + k % 2;
      } else {
        assert SetBit(k, j, bit) == 2 * lo + 2 * q + k % 2;
      }
    }
  }

  /** `x % (2 q)` from `x / 2`: the remainder keeps the low bit of x. */
  lemma ModDouble(x: nat, q: nat)
    requires q >= 1
    ensures x % (2 * q) == 2 * ((x / 2) % q) + x % 2
  {
    var h := x / 2;
    DivDiv(x, q);
    assert x == 2 * h + x % 2;
    assert h == q * (h / q) + h % q;
    assert x == (2 * q) * (h / q) + (2 * (h % q) + x % 2);
    assert x == (2 * q) * (x / (2 * q)) + x % (2 * q);
  }

  /** Bit `j` is what remains in the units place after dividing by 2^j. */
  lemma {:induction false} BitAtDiv(k: nat, j: nat)
    requires j <= 16
    ensures BitAt(k, j) == (k / Pow2(j)) % 2
    decreases j
  {
    if j > 0 {
      BitAtDiv(k / 2, j - 1);
      assert Pow2(j) == 2 * Pow2(j - 1);
      DivDiv(k, Pow2(j - 1));
    }
  }

  /** `x / (2 p) == (x / 2) / p`. */
  lemma DivDiv(x: nat, p: nat)
    requires p >= 1
    ensures x / (2 * p) == (x / 2) / p
  {
    var q := (x / 2) / p;
    var r := 2 * ((x / 2) % p) + x % 2;
    assert x == 2 * p * q + r;
    DivUnique(x, 2 * p, q, r);
  }

  /** Division is determined by any quotient and remainder that fit. */
  lemma DivUnique(x: nat, d: nat, q: nat, r: nat)
    requires d >= 1 && x == d * q + r && r < d
    ensures x / d == q
  {
    var t := x / d;
    assert d * (t - q) == r - x % d;
    MulFarFromZero(d, t - q);
  }

  /** A nonzero multiple of `d` is at least `d` away from zero. */
  lemma MulFarFromZero(d: int, k: int)
    requires d >= 1
    ensures k >= 1 ==> d * k >= d
    ensures k <= -1 ==> d * k <= -d
  {
  }

  /** `BitAnd` is bitwise conjunction. */
  lemma {:induction false} BitAndAt(x: nat, y: nat, j: nat)
    ensures BitAt(BitAnd(x, y), j) == BitAt(x, j) * BitAt(y, j)
    decreases j
  {
    if x == 0 || y == 0 {
      ZeroAt(j);
    } else {
      var b: OneBit := if x % 2 == 1 && y % 2 == 1 then 1 else 0;
      PeelBit(b, BitAnd(x / 2, y / 2));
      PeelBit(x % 2, x / 2);
      PeelBit(y % 2, y / 2);
      if j > 0 {
        BitAndAt(x / 2, y / 2, j - 1);
      }
    }
  }

  /** `BitOr` is bitwise disjunction. */
  lemma {:induction false} BitOrAt(x: nat, y: nat, j: nat)
    ensures BitAt(BitOr(x, y), j) == if BitAt(x, j) == 1 || BitAt(y, j) == 1 then 1 else 0
    decreases j
  {
    if x == 0 || y == 0 {
      ZeroAt(j);
    } else {
      var b: OneBit := if x % 2 == 1 || y % 2 == 1 then 1 else 0;
      PeelBit(b, BitOr(x / 2, y / 2));
      PeelBit(x % 2, x / 2);
      PeelBit(y % 2, y / 2);
      if j > 0 {
        BitOrAt(x / 2, y / 2, j - 1);
      }
    }
  }

  /** `BitXor` is bitwise exclusive or. */
  lemma {:induction false} BitXorAt(x: nat, y: nat, j: nat)
    ensures BitAt(BitXor(x, y), j) == if BitAt(x, j) != BitAt(y, j) then 1 else 0
    decreases j
  {
    if x == 0 || y == 0 {
      ZeroAt(j);
    } else {
      var b: OneBit := if x % 2 != y % 2 then 1 else 0;
      PeelBit(b, BitXor(x / 2, y / 2));
      PeelBit(x % 2, x / 2);
      PeelBit(y % 2, y / 2);
      if j > 0 {
        BitXorAt(x / 2, y / 2, j - 1);
      }
    }
  }

  lemma {:induction false} ZeroAt(j: nat)
    ensures BitAt(0, j) == 0
    decreases j
  {
    if j > 0 {
      ZeroAt(j - 1);
    }
  }

  /** A bitwise conjunction is no larger than either operand. */
  lemma {:induction false} BitAndBound(x: nat, y: nat)
    ensures BitAnd(x, y) <= x && BitAnd(x, y) <= y
    decreases x
  {
    if x != 0 && y != 0 {
      BitAndBound(x / 2, y / 2);
    }
  }

  /** A bitwise exclusive or of two j-bit numbers fits in j bits. */
  lemma {:induction false} BitXorBelow(x: nat, y: nat, j: nat)
    requires j <= 16 && x < Pow2(j) && y < Pow2(j)
    ensures BitXor(x, y) < Pow2(j)
    decreases j
  {
    if x != 0 && y != 0 {
      assert j >= 1;
      assert Pow2(j) == 2 * Pow2(j - 1);
      BitXorBelow(x / 2, y / 2, j - 1);
    }
  }

  /** Bitwise and, and exclusive or, of two bytes, as a byte. */
  function AndByte(x: Byte, y: Byte): Byte
  {
    BitAndBound(x, y);
    BitAnd(x, y)
  }

  function XorByte(x: Byte, y: Byte): Byte
  {
    BitXorBelow(x, y, 8);
    BitXor(x, y)
  }
}

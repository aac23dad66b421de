/** Bit and nibble helpers of the emulator (bit_ops.rs), and the fixed-width
    integer operations of Rust that the engine relies on (`|`, `&`, `^`, `<<`,
    `>>` and the truncating `as u8` cast), written out on unbounded naturals. */
module BitOps {

  /** An unsigned 8-bit value (Rust `u8`). */
  type Byte = x: int | 0 <= x < 0x100
  /** An unsigned 16-bit value (Rust `u16`). */
  type Word = x: int | 0 <= x < 0x1_0000
  /** A 4-bit field of an instruction word. */
  type Nibble = x: int | 0 <= x < 0x10

  function Pow2(n: nat): (r: nat)
    ensures r >= 1
  {
    if n == 0 then 1 else 2 * Pow2(n - 1)
  }

  /** Rust's `<<` without a width limit: `v` doubled `n` times. */
  function Lsh(v: nat, n: nat): nat
  {
    if n == 0 then v else 2 * Lsh(v, n - 1)
  }

  /** Rust's `>>` on an unsigned integer: `v` halved `n` times, rounding down. */
  function Rsh(v: nat, n: nat): nat
  {
    if n == 0 then v else Rsh(v / 2, n - 1)
  }

  /** Rust's `<<` on a `width`-bit unsigned integer: the bits shifted out are lost. */
  function Shl(v: nat, n: nat, width: nat): (r: nat)
    ensures r < Pow2(width)
  {
    Lsh(v, n) % Pow2(width)
  }

  /** Bit `n` of `v`, counting from the least significant bit: the reference
      meaning of every bitwise operation below. */
  predicate Bit(v: nat, n: nat)
  {
    Rsh(v, n) % 2 == 1
  }

  /** Rust's `&` on unsigned integers, one bit at a time from the bottom. */
  function BitAnd(a: nat, b: nat): (r: nat)
    ensures r <= a && r <= b
    decreases a
  {
    if a == 0 || b == 0 then 0
    else 2 * BitAnd(a / 2, b / 2) + (if a % 2 == 1 && b % 2 == 1 then 1 else 0)
  }

  /** Rust's `|` on unsigned integers. */
  function BitOr(a: nat, b: nat): (r: nat)
    ensures a <= r && b <= r && r <= a + b
    decreases a
  {
    if a == 0 then b
    else if b == 0 then a
    else 2 * BitOr(a / 2, b / 2) + (if a % 2 == 1 || b % 2 == 1 then 1 else 0)
  }

  /** Rust's `^` on unsigned integers. */
  function BitXor(a: nat, b: nat): (r: nat)
    ensures r <= a + b
    decreases a
  {
    if a == 0 then b
    else if b == 0 then a
    else 2 * BitXor(a / 2, b / 2) + (if (a % 2 == 1) != (b % 2 == 1) then 1 else 0)
  }

  /** Rust's `as u8` cast from a wider integer, signed or not: keeps the low
      eight bits (two's complement for negative values). */
  function AsU8(n: int): Byte
  {
    n % 0x100
  }

  /** The cast keeps the value modulo 256: the byte differs from its input
      by a multiple of 256, and a value that already fits is kept. */
  lemma AsU8Truncates(n: int)
    ensures (n - AsU8(n)) % 0x100 == 0
    ensures 0 <= n < 0x100 ==> AsU8(n) == n
  {
  }

  // ---------------------------------------------------------------------------
  // Shifts are multiplication and division by powers of two.

  lemma MulLe(a: nat, b: nat, d: nat)
    requires a <= b
    ensures a * d <= b * d
    decreases b - a
  {
    if a < b {
      MulLe(a, b - 1, d);
      assert b * d == (b - 1) * d + d;
    }
  }

  lemma MulSign(x: int, d: int)
    requires d >= 0
    ensures x >= 1 ==> x * d >= d
    ensures x <= -1 ==> x * d <= -d
  {
    if x >= 1 {
      MulLe(1, x, d);
    } else if x <= -1 {
      MulLe(1, -x, d);
      assert x * d == -((-x) * d);
    }
  }

  /** Quotient and remainder are unique. */
  lemma DivUnique(v: nat, d: nat, q: nat, r: nat)
    requires d >= 1 && v == q * d + r && r < d
    ensures v / d == q && v % d == r
  {
    var q', r' := v / d, v % d;
    assert (q - q') * d == r' - r;
    MulSign(q - q', d);
  }

  /** Halving `2q + c` for a bit `c` gives back `q` and `c`. */
  lemma Halves(q: nat, c: nat)
    requires c < 2
    ensures (2 * q + c) / 2 == q && (2 * q + c) % 2 == c
  {
    DivUnique(2 * q + c, 2, q, c);
  }

  lemma DivMod2(v: nat, p: nat)
    requires p >= 1
    ensures v / (2 * p) == (v / 2) / p
    ensures v % (2 * p) == 2 * ((v / 2) % p) + v % 2
  {
    var q, r := (v / 2) / p, (v / 2) % p;
    assert v / 2 == q * p + r;
    assert v == q * (2 * p) + (2 * r + v % 2);
    DivUnique(v, 2 * p, q, 2 * r + v % 2);
  }

  lemma {:induction false} RshIsDiv(v: nat, n: nat)
    ensures Rsh(v, n) == v / Pow2(n)
    decreases n
  {
    if n > 0 {
      RshIsDiv(v / 2, n - 1);
      DivMod2(v, Pow2(n - 1));
    }
  }

  lemma {:induction false} LshIsMul(v: nat, n: nat)
    ensures Lsh(v, n) == v * Pow2(n)
    decreases n
  {
    if n > 0 {
      LshIsMul(v, n - 1);
      assert 2 * (v * Pow2(n - 1)) == v * (2 * Pow2(n - 1));
    }
  }

  /** Shifting left and then right by the same amount gives the value back. */
  lemma {:induction false} RshLsh(v: nat, n: nat)
    ensures Rsh(Lsh(v, n), n) == v
    decreases n
  {
    if n > 0 {
      RshLsh(v, n - 1);
      RshOfDouble(Lsh(v, n - 1), n - 1);
    }
  }

  lemma {:induction false} RshOfDouble(v: nat, n: nat)
    ensures Rsh(2 * v, n + 1) == Rsh(v, n)
  {
  }

  lemma {:induction false} RshOfZero(n: nat)
    ensures Rsh(0, n) == 0
    decreases n
  {
    if n > 0 {
      RshOfZero(n - 1);
    }
  }

  lemma {:induction false} LshOfZero(n: nat)
    ensures Lsh(0, n) == 0
    decreases n
  {
    if n > 0 {
      LshOfZero(n - 1);
    }
  }

  // ---------------------------------------------------------------------------
  // Each bitwise operation agrees with its meaning on every bit.

  lemma {:induction false} BitAndAt(a: nat, b: nat, n: nat)
    ensures Bit(BitAnd(a, b), n) <==> Bit(a, n) && Bit(b, n)
    decreases n
  {
    if a == 0 || b == 0 {
      RshOfZero(n);
    } else if n > 0 {
      Halves(BitAnd(a / 2, b / 2), if a % 2 == 1 && b % 2 == 1 then 1 else 0);
      BitAndAt(a / 2, b / 2, n - 1);
    } else {
      Halves(BitAnd(a / 2, b / 2), if a % 2 == 1 && b % 2 == 1 then 1 else 0);
    }
  }

  lemma {:induction false} BitOrAt(a: nat, b: nat, n: nat)
    ensures Bit(BitOr(a, b), n) <==> Bit(a, n) || Bit(b, n)
    decreases n
  {
    if a == 0 || b == 0 {
      RshOfZero(n);
    } else if n > 0 {
      Halves(BitOr(a / 2, b / 2), if a % 2 == 1 || b % 2 == 1 then 1 else 0);
      BitOrAt(a / 2, b / 2, n - 1);
    } else {
      Halves(BitOr(a / 2, b / 2), if a % 2 == 1 || b % 2 == 1 then 1 else 0);
    }
  }

  lemma {:induction false} BitXorAt(a: nat, b: nat, n: nat)
    ensures Bit(BitXor(a, b), n) <==> Bit(a, n) != Bit(b, n)
    decreases n
  {
    if a == 0 || b == 0 {
      RshOfZero(n);
    } else if n > 0 {
      Halves(BitXor(a / 2, b / 2), if (a % 2 == 1) != (b % 2 == 1) then 1 else 0);
      BitXorAt(a / 2, b / 2, n - 1);
    } else {
      Halves(BitXor(a / 2, b / 2), if (a % 2 == 1) != (b % 2 == 1) then 1 else 0);
    }
  }

  /** Every bit of `a | b` is the or of the operands' bits. */
  lemma OrBits(a: nat, b: nat)
    ensures forall n: nat :: Bit(BitOr(a, b), n) <==> Bit(a, n) || Bit(b, n)
  {
    forall n: nat ensures Bit(BitOr(a, b), n) <==> Bit(a, n) || Bit(b, n) {
      BitOrAt(a, b, n);
    }
  }

  /** Every bit of `a & b` is the and of the operands' bits. */
  lemma AndBits(a: nat, b: nat)
    ensures forall n: nat :: Bit(BitAnd(a, b), n) <==> Bit(a, n) && Bit(b, n)
  {
    forall n: nat ensures Bit(BitAnd(a, b), n) <==> Bit(a, n) && Bit(b, n) {
      BitAndAt(a, b, n);
    }
  }

  /** Every bit of `a ^ b` is the exclusive or of the operands' bits. */
  lemma XorBits(a: nat, b: nat)
    ensures forall n: nat :: Bit(BitXor(a, b), n) <==> Bit(a, n) != Bit(b, n)
  {
    forall n: nat ensures Bit(BitXor(a, b), n) <==> Bit(a, n) != Bit(b, n) {
      BitXorAt(a, b, n);
    }
  }

  /** Or-ing or and-ing a value with itself gives it back; xor-ing gives zero. */
  lemma {:induction false} SelfOperands(a: nat)
    ensures BitOr(a, a) == a && BitAnd(a, a) == a && BitXor(a, a) == 0
    decreases a
  {
    if a != 0 {
      SelfOperands(a / 2);
    }
  }

  // ---------------------------------------------------------------------------
  // Width: the operations never produce bits above the widest operand.

  lemma {:induction false} OrBounded(a: nat, b: nat, k: nat)
    requires a < Pow2(k) && b < Pow2(k)
    ensures BitOr(a, b) < Pow2(k)
    decreases k
  {
    if a != 0 && b != 0 {
      OrBounded(a / 2, b / 2, k - 1);
    }
  }

  lemma {:induction false} XorBounded(a: nat, b: nat, k: nat)
    requires a < Pow2(k) && b < Pow2(k)
    ensures BitXor(a, b) < Pow2(k)
    decreases k
  {
    if a != 0 && b != 0 {
      XorBounded(a / 2, b / 2, k - 1);
    }
  }

  // ---------------------------------------------------------------------------
  // Masks and disjoint fields.

  /** `v & (2^k - 1)` keeps the low `k` bits. */
  lemma {:induction false} AndLowMask(v: nat, k: nat)
    ensures BitAnd(v, Pow2(k) - 1) == v % Pow2(k)
    decreases k
  {
    if v == 0 {
      DivUnique(0, Pow2(k), 0, 0);
    } else if k > 0 {
      AndLowMask(v / 2, k - 1);
      AndLowMaskStep(v, k);
    }
  }

  lemma AndLowMaskStep(v: nat, k: nat)
    requires k > 0 && v != 0
    requires BitAnd(v / 2, Pow2(k - 1) - 1) == (v / 2) % Pow2(k - 1)
    ensures BitAnd(v, Pow2(k) - 1) == v % Pow2(k)
  {
    var p := Pow2(k - 1);
    var m := Pow2(k) - 1;
    assert m / 2 == p - 1 && m % 2 == 1;
    assert BitAnd(v, m) == 2 * BitAnd(v / 2, m / 2) + v % 2;
    DivMod2(v, p);
  }

  /** Masking with a field moved up by `k` bits is masking the value moved
      down by `k` bits, then moving the result back up. */
  lemma {:induction false} AndShifted(v: nat, c: nat, k: nat)
    ensures BitAnd(v, Lsh(c, k)) == Lsh(BitAnd(Rsh(v, k), c), k)
    decreases k
  {
    if k > 0 {
      AndShifted(v / 2, c, k - 1);
      if v == 0 {
        RshOfZero(k);
        LshOfZero(k);
      } else if Lsh(c, k) != 0 {
        assert BitAnd(v, Lsh(c, k)) == 2 * BitAnd(v / 2, Lsh(c, k - 1));
      } else {
        LshOfZero(k - 1);
      }
    }
  }

  /** `(a << k) | b` with `b` below bit `k` is plain addition. */
  lemma {:induction false} OrDisjoint(a: nat, b: nat, k: nat)
    requires b < Pow2(k)
    ensures BitOr(Lsh(a, k), b) == Lsh(a, k) + b
    decreases k
  {
    if k > 0 && b != 0 && Lsh(a, k) != 0 {
      OrDisjoint(a, b / 2, k - 1);
      assert BitOr(Lsh(a, k), b) == 2 * BitOr(Lsh(a, k - 1), b / 2) + b % 2;
    }
  }

  /** `v & (1 << n)` is non-zero exactly when bit `n` of `v` is set. */
  lemma {:induction false} SingleBitMask(v: nat, n: nat)
    ensures BitAnd(v, Lsh(1, n)) != 0 <==> Bit(v, n)
  {
    AndShifted(v, 1, n);
    AndLowMask(Rsh(v, n), 1);
    assert Pow2(1) == 2;
    var b := BitAnd(Rsh(v, n), 1);
    RshLsh(b, n);
    if b == 0 {
      LshOfZero(n);
    } else {
      RshOfZero(n);
    }
  }

  lemma Pow2Values()
    ensures Pow2(4) == 16 && Pow2(7) == 128 && Pow2(8) == 256 && Pow2(12) == 4096
    ensures Pow2(15) == 0x8000 && Pow2(16) == 0x1_0000
  {
    assert Pow2(2) == 4;
    assert Pow2(4) == 16;
    assert Pow2(6) == 64;
    assert Pow2(8) == 256;
    assert Pow2(10) == 1024;
    assert Pow2(12) == 4096;
    assert Pow2(14) == 0x4000;
  }

  // ---------------------------------------------------------------------------
  // The helpers of bit_ops.rs.

  /** Shifting a byte left by 4 or 8 bits, as the helpers below do. */
  lemma ShiftByNibbles(b: nat)
    ensures Lsh(b, 4) == 16 * b && Lsh(b, 8) == 256 * b
  {
    LshIsMul(b, 4);
    LshIsMul(b, 8);
    Pow2Values();
  }

  /** A left shift that loses no bits is a plain doubling. */
  lemma ShlNoLoss(v: nat, n: nat, width: nat)
    requires Lsh(v, n) < Pow2(width)
    ensures Shl(v, n, width) == Lsh(v, n)
  {
    DivUnique(Lsh(v, n), Pow2(width), 0, Lsh(v, n));
  }

  lemma ToU8Value(b1: Byte, b2: Byte)
    ensures BitOr(Shl(b1, 4, 8), b2) < 256
    ensures b1 < 16 && b2 < 16 ==> BitOr(Shl(b1, 4, 8), b2) == 16 * b1 + b2
  {
    Pow2Values();
    OrBounded(Shl(b1, 4, 8), b2, 8);
    if b1 < 16 && b2 < 16 {
      ShiftByNibbles(b1);
      ShlNoLoss(b1, 4, 8);
      OrDisjoint(b1, b2, 4);
    }
  }

  /** `to_u8`: `(b1 << 4) | b2` in 8-bit arithmetic; for two nibbles, the byte
      whose high nibble is `b1` and low nibble is `b2`. */
  function ToU8(b1: Byte, b2: Byte): (r: Byte)
    ensures b1 < 16 && b2 < 16 ==> r == 16 * b1 + b2 && r / 16 == b1 && r % 16 == b2
  {
    ToU8Value(b1, b2);
    BitOr(Shl(b1, 4, 8), b2)
  }

  lemma ToU16Value(b1: Byte, b2: Byte)
    ensures BitOr(Shl(b1, 8, 16), b2) == 256 * b1 + b2
  {
    Pow2Values();
    ShiftByNibbles(b1);
    ShlNoLoss(b1, 8, 16);
    OrDisjoint(b1, b2, 8);
  }

  /** `to_u16`: `(b1 << 8) | b2` in 16-bit arithmetic, the big-endian word of
      two bytes; splitting it into high and low byte gives them back. */
  function ToU16(b1: Byte, b2: Byte): (r: Word)
    ensures r == 256 * b1 + b2
    ensures r / 256 == b1 && r % 256 == b2
  {
    ToU16Value(b1, b2);
    BitOr(Shl(b1, 8, 16), b2)
  }

  lemma ToU16FromThreeValue(b1: Byte, b2: Byte, b3: Byte)
    ensures BitOr(BitOr(Shl(b1, 8, 16), Shl(b2, 4, 16)), b3) < 0x1_0000
    ensures b1 < 16 && b2 < 16 && b3 < 16 ==>
      BitOr(BitOr(Shl(b1, 8, 16), Shl(b2, 4, 16)), b3) == 256 * b1 + 16 * b2 + b3
  {
    Pow2Values();
    var hi, mid := Shl(b1, 8, 16), Shl(b2, 4, 16);
    OrBounded(hi, mid, 16);
    OrBounded(BitOr(hi, mid), b3, 16);
    if b1 < 16 && b2 < 16 && b3 < 16 {
      NibblesValue(b1, b2, b3);
    }
  }

  lemma NibblesValue(b1: Byte, b2: Byte, b3: Byte)
    requires b1 < 16 && b2 < 16 && b3 < 16
    ensures BitOr(BitOr(Shl(b1, 8, 16), Shl(b2, 4, 16)), b3) == 256 * b1 + 16 * b2 + b3
  {
    ShlNibble(b1);
    ShlNibble(b2);
    OrBelowByte(b1, 16 * b2);
    var low := 16 * b1 + b2;
    assert 16 * low == 256 * b1 + 16 * b2;
    OrBelowNibble(low, b3);
  }

  /** A nibble shifted left by 4 or 8 bits within a word loses nothing. */
  lemma ShlNibble(b: nat)
    requires b < 16
    ensures Shl(b, 4, 16) == 16 * b && Shl(b, 8, 16) == 256 * b
  {
    Pow2Values();
    ShiftByNibbles(b);
    ShlNoLoss(b, 4, 16);
    ShlNoLoss(b, 8, 16);
  }

  /** `(a << 8) | b` for a byte `b` is plain addition. */
  lemma OrBelowByte(a: nat, b: nat)
    requires b < 256
    ensures BitOr(256 * a, b) == 256 * a + b
  {
    ShiftByNibbles(a);
    Pow2Values();
    OrDisjoint(a, b, 8);
  }

  /** `(a << 4) | b` for a nibble `b` is plain addition. */
  lemma OrBelowNibble(a: nat, b: nat)
    requires b < 16
    ensures BitOr(16 * a, b) == 16 * a + b
  {
    ShiftByNibbles(a);
    Pow2Values();
    OrDisjoint(a, b, 4);
  }

  /** `to_u16_from_three`: `(b1 << 8) | (b2 << 4) | b3` in 16-bit arithmetic;
      for three nibbles, the 12-bit address they spell. */
  function ToU16FromThree(b1: Byte, b2: Byte, b3: Byte): (r: Word)
    ensures b1 < 16 && b2 < 16 && b3 < 16 ==> r == 256 * b1 + 16 * b2 + b3 && r < 4096
  {
    ToU16FromThreeValue(b1, b2, b3);
    BitOr(BitOr(Shl(b1, 8, 16), Shl(b2, 4, 16)), b3)
  }

  /** `get_bit_at_u8`: `byte & (1 << n) != 0`; Rust refuses the shift for `n >= 8`. */
  function GetBitAtU8(b: Byte, n: Byte): (r: bool)
    requires n < 8
    ensures r <==> (b / Pow2(n)) % 2 == 1
  {
    SingleBitValue(b, n, 8);
    BitAnd(b, Shl(1, n, 8)) != 0
  }

  /** `get_bit_at_u16`: `word & (1 << n) != 0`; Rust refuses the shift for `n >= 16`. */
  function GetBitAtU16(w: Word, n: Word): (r: bool)
    requires n < 16
    ensures r <==> (w / Pow2(n)) % 2 == 1
  {
    SingleBitValue(w, n, 16);
    BitAnd(w, Shl(1, n, 16)) != 0
  }

  lemma {:induction false} Pow2Below(n: nat, width: nat)
    requires n < width
    ensures Pow2(n) < Pow2(width)
    decreases width
  {
    if n < width - 1 {
      Pow2Below(n, width - 1);
    }
  }

  /** Masking with `1 << n` in a register wider than `n` bits tests bit `n`. */
  lemma SingleBitValue(v: nat, n: nat, width: nat)
    requires n < width
    ensures BitAnd(v, Shl(1, n, width)) != 0 <==> (v / Pow2(n)) % 2 == 1
  {
    LshIsMul(1, n);
    Pow2Below(n, width);
    DivUnique(Pow2(n), Pow2(width), 0, Pow2(n));
    assert Shl(1, n, width) == Lsh(1, n);
    SingleBitMask(v, n);
    RshIsDiv(v, n);
  }

  // ---------------------------------------------------------------------------
  // The byte-wide operators `|`, `&`, `^` of the register file.

  /** `a | b` on bytes. */
  function Or8(a: Byte, b: Byte): (r: Byte)
    ensures forall n: nat :: Bit(r, n) <==> Bit(a, n) || Bit(b, n)
  {
    Pow2Values();
    OrBounded(a, b, 8);
    OrBits(a, b);
    BitOr(a, b)
  }

  /** `a & b` on bytes. */
  function And8(a: Byte, b: Byte): (r: Byte)
    ensures forall n: nat :: Bit(r, n) <==> Bit(a, n) && Bit(b, n)
  {
    AndBits(a, b);
    BitAnd(a, b)
  }

  /** `a ^ b` on bytes. */
  function Xor8(a: Byte, b: Byte): (r: Byte)
    ensures forall n: nat :: Bit(r, n) <==> Bit(a, n) != Bit(b, n)
  {
    Pow2Values();
    XorBounded(a, b, 8);
    XorBits(a, b);
    BitXor(a, b)
  }
}

/** The register file of registers.rs: sixteen byte registers V0..VF, updated
    in place, and the 16-bit index register `I`. Every index is a register
    number below 16; Rust panics on a larger one, so the model requires it. */
module RegisterFile {
  import opened BitOps

  /** The number of the flag register VF. */
  const VF: Byte := 0xF

  class Registers {
    /** V0..VF: the `[u8; 16]` array, written cell by cell. */
    const v: array<Byte>
    /** The index register `I`. */
    var i: Word

    ghost predicate Valid()
      reads this
    {
      v.Length == 16
    }

    /** `Registers::default`: all sixteen registers and `I` are zero. */
    constructor Default()
      ensures Valid() && fresh(v)
      ensures forall k :: 0 <= k < 16 ==> v[k] == 0
      ensures i == 0
    {
      v := new Byte[16](_ => 0);
      i := 0;
    }

    /** `get`: the value of register `x`. */
    function Get(x: Byte): Byte
      reads this, v
      requires Valid() && x < 16
    {
      v[x]
    }

    /** `set`: register `x` now holds `val`; the other registers and `I` keep
        their values. */
    method Set(x: Byte, val: Byte)
      requires Valid() && x < 16
      modifies v
      ensures v[..] == old(v[..])[x := val]
      ensures Get(x) == val && i == old(i)
    {
      v[x] := val;
    }

    /** `or`: `Vx |= Vy`. */
    method Or(x: Byte, y: Byte)
      requires Valid() && x < 16 && y < 16
      modifies v
      ensures v[..] == old(v[..])[x := Or8(old(v[x]), old(v[y]))]
      ensures i == old(i)
    {
      v[x] := Or8(v[x], Get(y));
    }

    /** `and`: `Vx &= Vy`. */
    method And(x: Byte, y: Byte)
      requires Valid() && x < 16 && y < 16
      modifies v
      ensures v[..] == old(v[..])[x := And8(old(v[x]), old(v[y]))]
      ensures i == old(i)
    {
      v[x] := And8(v[x], Get(y));
    }

    /** `xor`: `Vx ^= Vy`. */
    method Xor(x: Byte, y: Byte)
      requires Valid() && x < 16 && y < 16
      modifies v
      ensures v[..] == old(v[..])[x := Xor8(old(v[x]), old(v[y]))]
      ensures i == old(i)
    {
      v[x] := Xor8(v[x], Get(y));
    }

    /** `shift_left`: `Vx <<= amount` on a byte, losing the bits shifted out;
        Rust panics for an amount of 8 or more. By one, it doubles modulo 256. */
    method ShiftLeft(x: Byte, amount: Byte)
      requires Valid() && x < 16 && amount < 8
      modifies v
      ensures v[..] == old(v[..])[x := Shl(old(v[x]), amount, 8)]
      ensures amount == 1 ==> v[x] as int == (2 * old(v[x]) as int) % 256
      ensures i == old(i)
    {
      ShlIsByte(v[x], amount);
      v[x] := Shl(v[x], amount, 8);
    }

    /** `shift_right`: `Vx >>= amount`; Rust panics for an amount of 8 or more.
        By one, it halves, rounding down. */
    method ShiftRight(x: Byte, amount: Byte)
      requires Valid() && x < 16 && amount < 8
      modifies v
      ensures v[..] == old(v[..])[x := Rsh(old(v[x]), amount)]
      ensures amount == 1 ==> v[x] == old(v[x]) / 2
      ensures i == old(i)
    {
      RshIsByte(v[x], amount);
      v[x] := Rsh(v[x], amount);
    }

    /** `set_vf`: exactly `set(0xF, val)`. */
    method SetVf(val: Byte)
      requires Valid()
      modifies v
      ensures v[..] == old(v[..])[VF := val]
      ensures i == old(i)
    {
      Set(VF, val);
    }
  }

  lemma ShlIsByte(b: Byte, n: nat)
    ensures Shl(b, n, 8) < 256
    ensures n == 1 ==> Shl(b, n, 8) == (2 * b as int) % 256
  {
    Pow2Values();
    if n == 1 {
      assert Lsh(b, 1) == 2 * Lsh(b, 0);
    }
  }

  lemma RshIsByte(b: Byte, n: nat)
    ensures Rsh(b, n) <= b
    ensures n == 1 ==> Rsh(b, n) == b / 2
  {
    RshIsDiv(b, n);
    DivUnique(b, 1, b, 0);
    MulLe(1, Pow2(n), b / Pow2(n));
  }

  /** With the same register as both operands, `or` and `and` leave it as it
      was and `xor` clears it. */
  lemma SameRegisterOperands(a: Byte)
    ensures Or8(a, a) == a && And8(a, a) == a && Xor8(a, a) == 0
  {
    SelfOperands(a);
  }
}

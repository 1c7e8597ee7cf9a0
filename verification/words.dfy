/** Fixed-width machine words of the 8-bit target: unsigned 8/16/32-bit values,
    16-bit signed `int`, and single bits of a byte. */
module Words {

  type u8 = x: int | 0 <= x < 0x100
  type u16 = x: int | 0 <= x < 0x1_0000
  type u32 = x: int | 0 <= x < 0x1_0000_0000

  const TWO32: nat := 0x1_0000_0000

  function Wrap8(x: int): u8 { x % 0x100 }

  function Wrap16(x: int): u16 { x % 0x1_0000 }

  function Wrap32(x: int): u32 { x % 0x1_0000_0000 }

  /** The low 16 bits of `x` read as a two's-complement `int` of the target. */
  function Int16(x: int): int
  {
    var r := x % 0x1_0000;
    if r < 0x8000 then r else r - 0x1_0000
  }

  function Min(a: int, b: int): int { if a < b then a else b }

  function Max(a: int, b: int): int { if a < b then b else a }

  /** Unsigned 32-bit subtraction `now - start` of two millisecond readings. */
  function Elapsed(now: u32, start: u32): u32 { Wrap32(now - start) }

  /** A wrapping clock measures a true interval exactly while that interval is
      shorter than one turn of the counter, whether or not it wraps inside. */
  lemma ElapsedIsTrueInterval(start: nat, now: nat)
    requires start <= now < start + TWO32
    ensures Elapsed(Wrap32(now), Wrap32(start)) == now - start
  {
    var a, b := now / TWO32, start / TWO32;
    assert now == a * TWO32 + now % TWO32 && start == b * TWO32 + start % TWO32;
    assert a == b || a == b + 1;
  }

  // ----- bits -----

  function Pow2(n: nat): (p: nat)
    ensures p >= 1
  {
    if n == 0 then 1 else 2 * Pow2(n - 1)
  }

  predicate Bit(x: nat, i: nat)
  {
    if i == 0 then x % 2 == 1 else Bit(x / 2, i - 1)
  }

  /** `x | (1 << i)` */
  function SetBit(x: nat, i: nat): nat
  {
    if i == 0 then 2 * (x / 2) + 1 else 2 * SetBit(x / 2, i - 1) + x % 2
  }

  /** `x & ~(1 << i)` */
  function ClearBit(x: nat, i: nat): nat
  {
    if i == 0 then 2 * (x / 2) else 2 * ClearBit(x / 2, i - 1) + x % 2
  }

  lemma {:induction false} SetBitReads(x: nat, i: nat, j: nat)
    ensures Bit(SetBit(x, i), j) <==> i == j || Bit(x, j)
  {
    var y := SetBit(x, i);
    if i > 0 && j > 0 {
      SetBitReads(x / 2, i - 1, j - 1);
      assert y / 2 == SetBit(x / 2, i - 1);
    } else if i == 0 {
      assert y / 2 == x / 2;
    }
  }

  lemma {:induction false} ClearBitReads(x: nat, i: nat, j: nat)
    ensures Bit(ClearBit(x, i), j) <==> i != j && Bit(x, j)
  {
    var y := ClearBit(x, i);
    if i > 0 && j > 0 {
      ClearBitReads(x / 2, i - 1, j - 1);
      assert y / 2 == ClearBit(x / 2, i - 1);
    } else if i == 0 {
      assert y / 2 == x / 2;
    }
  }

  lemma {:induction false} SetBitBound(x: nat, i: nat, n: nat)
    requires i < n && x < Pow2(n)
    ensures SetBit(x, i) < Pow2(n)
  {
    var half := Pow2(n - 1);
    assert Pow2(n) == 2 * half && x / 2 < half;
    if i > 0 { SetBitBound(x / 2, i - 1, n - 1); }
  }

  lemma {:induction false} ClearBitBound(x: nat, i: nat, n: nat)
    requires i < n && x < Pow2(n)
    ensures ClearBit(x, i) < Pow2(n)
  {
    var half := Pow2(n - 1);
    assert Pow2(n) == 2 * half && x / 2 < half;
    if i > 0 { ClearBitBound(x / 2, i - 1, n - 1); }
  }

  lemma ByteBound()
    ensures Pow2(8) == 0x100
  {
    assert Pow2(4) == 16;
    assert Pow2(6) == 4 * Pow2(4);
    assert Pow2(8) == 4 * Pow2(6);
  }

  /** `x | (1 << i)` on a byte. */
  function SetBit8(x: u8, i: nat): u8
    requires i < 8
  {
    SetBitBound8(x, i);
    SetBit(x, i)
  }

  /** `x & ~(1 << i)` on a byte. */
  function ClearBit8(x: u8, i: nat): u8
    requires i < 8
  {
    SetBitBound8(x, i);
    ClearBit(x, i)
  }

  lemma SetBitBound8(x: u8, i: nat)
    requires i < 8
    ensures SetBit(x, i) < 0x100 && ClearBit(x, i) < 0x100
  {
    ByteBound();
    SetBitBound(x, i, 8);
    ClearBitBound(x, i, 8);
  }

  lemma {:induction false} ZeroHasNoBits(i: nat)
    ensures !Bit(0, i)
  {
    if i > 0 { ZeroHasNoBits(i - 1); }
  }
}

/** Bitwise operators on natural numbers, and the field arithmetic they amount to. */
module Bits {

  /** A 32-bit instruction word. */
  type Word = x: int | 0 <= x < 0x1_0000_0000

  /** Bitwise conjunction, one binary digit at a time. */
  function And(a: nat, b: nat): nat
    decreases a
  {
    if a == 0 || b == 0 then 0 else 2 * And(a / 2, b / 2) + (if b % 2 == 1 then a % 2 else 0)
  }

  /** `a | b`: adding counts the shared digits twice. */
  function Or(a: nat, b: nat): nat
  {
    AndBelow(a, b);
    a + b - And(a, b)
  }

  /** `a ^ b`: the shared digits cancel. */
  function Xor(a: nat, b: nat): nat
  {
    AndBelow(a, b);
    a + b - 2 * And(a, b)
  }

  predicate IsPow2(p: nat)
  {
    p == 1 || (p > 1 && p % 2 == 0 && IsPow2(p / 2))
  }

  lemma PowersOfTwo()
    ensures IsPow2(0x2) && IsPow2(0x4) && IsPow2(0x8) && IsPow2(0x10) && IsPow2(0x20) && IsPow2(0x40) && IsPow2(0x80) && IsPow2(0x100)
    ensures IsPow2(0x400) && IsPow2(0x800) && IsPow2(0x4000) && IsPow2(0x8000) && IsPow2(0x10000) && IsPow2(0x20000) && IsPow2(0x40000) && IsPow2(0x80000)
    ensures IsPow2(0x100000) && IsPow2(0x200000) && IsPow2(0x400000) && IsPow2(0x800000) && IsPow2(0x1000000) && IsPow2(0x2000000) && IsPow2(0x4000000) && IsPow2(0x100000000)
  {
    SmallPowers();
    assert IsPow2(0x2_0000) && IsPow2(0x4_0000) && IsPow2(0x8_0000) && IsPow2(0x10_0000) && IsPow2(0x20_0000);
    assert IsPow2(0x40_0000) && IsPow2(0x80_0000) && IsPow2(0x100_0000) && IsPow2(0x200_0000) && IsPow2(0x400_0000);
    assert IsPow2(0x800_0000) && IsPow2(0x1000_0000) && IsPow2(0x2000_0000) && IsPow2(0x4000_0000);
    assert IsPow2(0x8000_0000) && IsPow2(0x1_0000_0000);
  }

  lemma SmallPowers()
    ensures IsPow2(0x2) && IsPow2(0x4) && IsPow2(0x8) && IsPow2(0x10) && IsPow2(0x20) && IsPow2(0x40) && IsPow2(0x80) && IsPow2(0x100)
    ensures IsPow2(0x400) && IsPow2(0x800) && IsPow2(0x4000) && IsPow2(0x8000) && IsPow2(0x10000)
  {
    assert IsPow2(0x1) && IsPow2(0x2) && IsPow2(0x4) && IsPow2(0x8) && IsPow2(0x10) && IsPow2(0x20);
    assert IsPow2(0x40) && IsPow2(0x80) && IsPow2(0x100) && IsPow2(0x200) && IsPow2(0x400) && IsPow2(0x800);
    assert IsPow2(0x1000) && IsPow2(0x2000) && IsPow2(0x4000) && IsPow2(0x8000) && IsPow2(0x1_0000);
  }

  /** Two's complement reading of a field of width `w` where `half == 2^(w-1)`. */
  function Signed(field: int, half: int): int
  {
    if field < half then field else field - 2 * half
  }

  lemma DoubleScale(h: int, q: int)
    ensures h * (2 * q) == 2 * (h * q)
  {
  }

  lemma Distribute(x: int, y: int, z: int, p: int)
    ensures (x + y - z) * p == x * p + y * p - z * p
  {
  }

  /** Conjunction works separately above and below any binary position. */
  lemma {:induction false} AndSplit(ah: nat, al: nat, bh: nat, bl: nat, p: nat)
    requires IsPow2(p) && al < p && bl < p
    ensures ah * p >= 0 && bh * p >= 0
    ensures And(ah * p + al, bh * p + bl) == And(ah, bh) * p + And(al, bl)
    decreases p
  {
    if p == 1 {
      assert al == 0 && bl == 0 && And(0, 0) == 0;
    } else {
      var q := p / 2;
      DoubleScale(ah, q);
      DoubleScale(bh, q);
      DoubleScale(And(ah, bh), q);
      AndSplit(ah, al / 2, bh, bl / 2, q);
      AndStep(ah * p + al, bh * p + bl);
      AndStep(al, bl);
      assert (ah * p + al) / 2 == ah * q + al / 2;
      assert (bh * p + bl) / 2 == bh * q + bl / 2;
    }
  }

  lemma AndStep(a: nat, b: nat)
    ensures And(a, b) == 2 * And(a / 2, b / 2) + (if a % 2 == 1 && b % 2 == 1 then 1 else 0)
  {
  }

  lemma AndZero(a: nat)
    ensures And(a, 0) == 0 && And(0, a) == 0
  {
  }

  lemma OrZero(a: nat)
    ensures Or(a, 0) == a && Or(0, a) == a
  {
  }

  lemma {:induction false} AndSelf(a: nat)
    ensures And(a, a) == a && Or(a, a) == a
    decreases a
  {
    if a != 0 {
      AndSelf(a / 2);
    }
  }

  lemma {:induction false} AndBelow(a: nat, b: nat)
    ensures And(a, b) <= a && And(a, b) <= b
    decreases a
  {
    if a != 0 && b != 0 {
      AndBelow(a / 2, b / 2);
    }
  }

  lemma {:induction false} AndOnes(l: nat, p: nat)
    requires IsPow2(p) && l < p
    ensures And(l, p - 1) == l
    decreases p
  {
    if p != 1 {
      AndOnes(l / 2, p / 2);
      AndStep(l, p - 1);
    }
  }

  /** Masking with 2^k - 1 keeps the low k bits. */
  lemma AndLow(h: nat, l: nat, p: nat)
    requires IsPow2(p) && l < p
    ensures h * p >= 0 && And(h * p + l, p - 1) == l
  {
    hide And;
    AndSplit(h, l, 0, p - 1, p);
    AndZero(h);
    AndOnes(l, p);
  }

  /** A contiguous mask selects its field in place. */
  lemma AndField(h: nat, f: nat, l: nat, p: nat, q: nat)
    requires IsPow2(p) && IsPow2(q) && l < p && f < q
    ensures h * q >= 0 && (h * q + f) * p >= 0 && (q - 1) * p >= 0
    ensures And((h * q + f) * p + l, (q - 1) * p) == f * p
  {
    hide And;
    AndSplit(h * q + f, l, q - 1, 0, p);
    AndLow(h, f, q);
    AndZero(l);
  }

  /** Values occupying disjoint bit ranges combine by addition. */
  lemma OrDisjoint(h: nat, lo: nat, p: nat)
    requires IsPow2(p) && lo < p
    ensures h * p >= 0 && And(h * p, lo) == 0 && Or(h * p, lo) == h * p + lo
  {
    hide And;
    AndSplit(h, 0, 0, lo, p);
    AndZero(h);
    AndZero(lo);
  }

  /** Disjunction works separately above and below any binary position. */
  lemma OrSplit(ah: nat, al: nat, bh: nat, bl: nat, p: nat)
    requires IsPow2(p) && al < p && bl < p
    ensures ah * p >= 0 && bh * p >= 0
    ensures Or(ah * p + al, bh * p + bl) == Or(ah, bh) * p + Or(al, bl)
  {
    hide And;
    AndSplit(ah, al, bh, bl, p);
    Distribute(ah, bh, And(ah, bh), p);
  }

  /** A disjunction stays below any power of two above both operands. */
  lemma {:induction false} OrBound(a: nat, b: nat, p: nat)
    requires IsPow2(p) && a < p && b < p
    ensures Or(a, b) < p && a <= Or(a, b) && b <= Or(a, b)
    decreases p
  {
    AndBelow(a, b);
    if p != 1 {
      OrBound(a / 2, b / 2, p / 2);
      AndStep(a, b);
    }
  }

  // The operators on 32-bit words.

  function Pow2(k: nat): (p: nat)
    ensures p > 0
  {
    if k == 0 then 1 else 2 * Pow2(k - 1)
  }

  function WAnd(a: Word, b: Word): Word
  {
    AndBelow(a, b);
    And(a, b)
  }

  function WOr(a: Word, b: Word): Word
  {
    PowersOfTwo();
    OrBound(a, b, 0x1_0000_0000);
    Or(a, b)
  }

  function WXor(a: Word, b: Word): Word
  {
    PowersOfTwo();
    OrBound(a, b, 0x1_0000_0000);
    AndBelow(a, b);
    Xor(a, b)
  }

  /** `a << k`, given `scale == 2^k`; a right shift by a constant is written as a division. */
  function Shl(a: Word, scale: nat): Word { a * scale % 0x1_0000_0000 }

  /** Rust's truncating `as u32`. */
  function AsU32(d: int): Word { d % 0x1_0000_0000 }
}

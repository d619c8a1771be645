/**
 * Unsigned 64-bit machine words as integers below 2^64: the left shift drops what leaves
 * the word, `Or` and `And` work bit by bit.
 */
module Words {
  import opened Basics

  function Pow2(n: nat): (p: nat)
    ensures p > 0
  {
    if n == 0 then 1 else 2 * Pow2(n - 1)
  }

  /** Bit i of w, counting from the least significant. */
  predicate Bit(w: nat, i: nat) {
    if i == 0 then w % 2 == 1 else Bit(w / 2, i - 1)
  }

  function Shl(w: uint64, s: nat): uint64
    decreases s
  {
    if s == 0 then w else Shl(w * 2 % TWO64, s - 1)
  }

  function Shr(w: uint64, s: nat): uint64
    decreases s
  {
    if s == 0 then w else Shr(w / 2, s - 1)
  }

  function OrNat(a: nat, b: nat): nat
    decreases a + b
  {
    if a == 0 then b
    else if b == 0 then a
    else 2 * OrNat(a / 2, b / 2) + (if a % 2 == 1 || b % 2 == 1 then 1 else 0)
  }

  function And(a: nat, b: nat): nat
    decreases a + b
  {
    if a == 0 || b == 0 then 0
    else 2 * And(a / 2, b / 2) + (if a % 2 == 1 && b % 2 == 1 then 1 else 0)
  }

  function Or(a: uint64, b: uint64): uint64 {
    Pow2Of64(); OrBound(a, b, 64);
    OrNat(a, b)
  }

  lemma OrBound(a: nat, b: nat, n: nat)
    requires a < Pow2(n) && b < Pow2(n)
    ensures OrNat(a, b) < Pow2(n)
    decreases n
  {
    if n > 0 && a != 0 && b != 0 { OrBound(a / 2, b / 2, n - 1); }
  }

  lemma Pow2Step(n: nat)
    ensures Pow2(n + 4) == 16 * Pow2(n)
  {
    assert Pow2(n + 2) == 4 * Pow2(n);
  }

  lemma Pow2Of64()
    ensures 2 * Pow2(63) == Pow2(64) == TWO64
  {
    Pow2Step(0); Pow2Step(4); Pow2Step(8); Pow2Step(12);
    Pow2Step(16); Pow2Step(20); Pow2Step(24); Pow2Step(28);
    Pow2Step(32); Pow2Step(36); Pow2Step(40); Pow2Step(44);
    Pow2Step(48); Pow2Step(52); Pow2Step(56); Pow2Step(60);
  }

  lemma {:induction false} BitZero(i: nat)
    ensures !Bit(0, i)
  {
    if i > 0 { BitZero(i - 1); }
  }

  lemma {:induction false} BitOne(i: nat)
    ensures Bit(1, i) <==> i == 0
  {
    if i > 0 { BitZero(i - 1); }
  }

  lemma {:induction false} BitBeyond(w: nat, n: nat, i: nat)
    requires w < Pow2(n) && n <= i
    ensures !Bit(w, i)
    decreases n
  {
    if n == 0 { BitZero(i); } else { BitBeyond(w / 2, n - 1, i - 1); }
  }

  lemma {:induction false} BitBelow(w: nat, n: nat, i: nat)
    requires Pow2(n) <= w && i < n
    ensures Bit(w - Pow2(n), i) <==> Bit(w, i)
    decreases n
  {
    assert (w - Pow2(n)) / 2 == w / 2 - Pow2(n - 1);
    if i > 0 { BitBelow(w / 2, n - 1, i - 1); }
  }

  lemma {:induction false} BitOr(a: nat, b: nat, i: nat)
    ensures Bit(OrNat(a, b), i) <==> Bit(a, i) || Bit(b, i)
    decreases i
  {
    BitZero(i);
    if a != 0 && b != 0 && i > 0 { BitOr(a / 2, b / 2, i - 1); }
  }

  lemma {:induction false} BitAnd(a: nat, b: nat, i: nat)
    ensures Bit(And(a, b), i) <==> Bit(a, i) && Bit(b, i)
    decreases i
  {
    BitZero(i);
    if a != 0 && b != 0 && i > 0 { BitAnd(a / 2, b / 2, i - 1); }
  }

  lemma {:induction false} SomeBit(w: nat) returns (i: nat)
    requires w != 0
    ensures Bit(w, i)
  {
    if w % 2 == 1 { i := 0; } else { i := SomeBit(w / 2); i := i + 1; }
  }

  lemma BitDoubled(w: uint64, i: nat)
    requires i < 64
    ensures Bit(w * 2 % TWO64, i) <==> i > 0 && Bit(w, i - 1)
  {
    Pow2Of64();
    if i > 0 && Pow2(63) <= w { BitBelow(w, 63, i - 1); }
  }

  lemma {:induction false} BitShl(w: uint64, s: nat, i: nat)
    requires i < 64
    ensures Bit(Shl(w, s), i) <==> s <= i && Bit(w, i - s)
    decreases s
  {
    if s > 0 {
      BitShl(w * 2 % TWO64, s - 1, i);
      if s - 1 <= i { BitDoubled(w, i - (s - 1)); }
    }
  }

  lemma {:induction false} BitShr(w: uint64, s: nat, i: nat)
    ensures Bit(Shr(w, s), i) <==> i + s < 64 && Bit(w, i + s)
    decreases s
  {
    Pow2Of64();
    if i + s >= 64 { BitBeyond(w, 64, i + s); }
    if s > 0 {
      BitShr(w / 2, s - 1, i);
      if i + s == 64 { BitBeyond(w / 2, 63, 63); }
    }
  }

  /** Masking with a shifted one tests one bit. */
  lemma MaskTestsBit(w: uint64, k: nat)
    requires k < 64
    ensures And(w, Shl(1, k)) != 0 <==> Bit(w, k)
  {
    var mask := Shl(1, k);
    BitShl(1, k, k); BitAnd(w, mask, k); BitZero(k);
    if And(w, mask) != 0 {
      var i := SomeBit(And(w, mask));
      BitAnd(w, mask, i);
      Pow2Of64();
      if i >= 64 { BitBeyond(w, 64, i); }
      BitShl(1, k, i);
      BitOne(if i >= k then i - k else 0);
    }
  }

  /** Setting a bit with a shifted one changes that bit and no other. */
  lemma MaskSetsBit(w: uint64, k: nat, i: nat)
    requires k < 64 && i < 64
    ensures Bit(Or(w, Shl(1, k)), i) <==> i == k || Bit(w, i)
  {
    BitOr(w, Shl(1, k), i); BitShl(1, k, i);
    if k <= i { BitOne(i - k); }
  }
}

/** Shifts of natural numbers. */
module Powers {

  function Pow2(n: nat): (p: nat)
    ensures p >= 1
  {
    if n == 0 then 1 else 2 * Pow2(n - 1)
  }

  function Shl(v: nat, n: nat): (r: nat)
    ensures r >= v
  {
    if n == 0 then v else 2 * Shl(v, n - 1)
  }

  function Shr(v: nat, n: nat): (r: nat)
    ensures r <= v
  {
    if n == 0 then v else Shr(v, n - 1) / 2
  }

  lemma {:induction false} ShlSum(u: nat, v: nat, n: nat)
    ensures Shl(u + v, n) == Shl(u, n) + Shl(v, n)
  {
    if n > 0 {
      ShlSum(u, v, n - 1);
    }
  }

  lemma {:induction false} OneShifted(n: nat)
    ensures Shl(1, n) == Pow2(n)
  {
    if n > 0 {
      OneShifted(n - 1);
    }
  }

  /** Shifting right is the best that shifting left can undo. */
  lemma {:induction false} ShiftsMeet(q: nat, v: nat, n: nat)
    ensures Shl(q, n) <= v <==> q <= Shr(v, n)
    decreases n
  {
    if n > 0 {
      ShlSum(q, q, n - 1);
      ShiftsMeet(2 * q, v, n - 1);
    }
  }

  lemma {:induction false} ShlMono(u: nat, v: nat, n: nat)
    ensures u < v <==> Shl(u, n) < Shl(v, n)
  {
    if n > 0 {
      ShlMono(u, v, n - 1);
    }
  }

  lemma {:induction false} ShrMono(u: nat, v: nat, n: nat)
    requires u <= v
    ensures Shr(u, n) <= Shr(v, n)
  {
    if n > 0 {
      ShrMono(u, v, n - 1);
    }
  }

  lemma {:induction false} ShrShl(q: nat, n: nat)
    ensures Shr(Shl(q, n), n) == q
  {
    ShiftsMeet(q, Shl(q, n), n);
    ShiftsMeet(q + 1, Shl(q, n), n);
    ShlMono(q, q + 1, n);
  }

  lemma {:induction false} ShlShr(v: nat, n: nat)
    ensures Shl(Shr(v, n), n) <= v < Shl(Shr(v, n), n) + Pow2(n)
  {
    ShiftsMeet(Shr(v, n), v, n);
    ShiftsMeet(Shr(v, n) + 1, v, n);
    ShlSum(Shr(v, n), 1, n);
    OneShifted(n);
  }

  lemma {:induction false} ShlAdd(v: nat, a: nat, b: nat)
    ensures Shl(v, a + b) == Shl(Shl(v, a), b)
  {
    if b > 0 {
      ShlAdd(v, a, b - 1);
    }
  }

  lemma {:induction false} ShrAdd(v: nat, a: nat, b: nat)
    ensures Shr(v, a + b) == Shr(Shr(v, a), b)
  {
    if b > 0 {
      ShrAdd(v, a, b - 1);
    }
  }

  lemma {:induction false} ShlGrows(v: nat, a: nat, b: nat)
    requires a <= b
    ensures Shl(v, a) <= Shl(v, b)
  {
    ShlAdd(v, a, b - a);
    hide Shl;
  }

  lemma {:induction false} FourBits(v: nat)
    ensures Shl(v, 1) == 2 * v && Shr(v, 1) == v / 2 && Shl(v, 4) == v * 0x10 && Shr(v, 4) == v / 0x10
  {
    assert Shl(v, 2) == 2 * Shl(v, 1) && Shl(v, 3) == 2 * Shl(v, 2) && Shl(v, 4) == 2 * Shl(v, 3);
    assert Shr(v, 2) == Shr(v, 1) / 2 && Shr(v, 3) == Shr(v, 2) / 2 && Shr(v, 4) == Shr(v, 3) / 2;
  }

  lemma {:induction false} EightBits(v: nat)
    ensures Shl(v, 8) == v * 0x100 && Shr(v, 8) == v / 0x100
  {
    hide Shl, Shr;
    FourBits(v);
    FourBits(Shl(v, 4));
    FourBits(Shr(v, 4));
    ShlAdd(v, 4, 4);
    ShrAdd(v, 4, 4);
  }

  lemma {:induction false} FewBits(v: nat)
    ensures Shl(v, 0) == v == Shr(v, 0) && Shl(v, 1) == 2 * v && Shr(v, 1) == v / 2
    ensures Shl(v, 8) == v * 0x100 && Shr(v, 8) == v / 0x100
    ensures Shl(v, 15) == v * 0x8000 && Shl(v, 16) == v * 0x1_0000 && Shr(v, 16) == v / 0x1_0000
    ensures Shl(v, 23) == v * 0x80_0000 && Shl(v, 24) == v * 0x100_0000
  {
    FourBits(v);
    EightBits(v);
    EightBits(Shl(v, 8));
    EightBits(Shr(v, 8));
    EightBits(Shl(v, 16));
    ShlAdd(v, 8, 8);
    ShrAdd(v, 8, 8);
    ShlAdd(v, 16, 8);
    assert Shl(v, 16) == 2 * Shl(v, 15) && Shl(v, 24) == 2 * Shl(v, 23);
  }
}

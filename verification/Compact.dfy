/** Big numbers and the compact form in which difficulty targets are stored: a size in bytes and three leading bytes. */
module Compact {
  import opened Powers

  /** How many bytes a number takes. */
  function NumBytes(v: nat): nat {
    if v == 0 then 0 else 1 + NumBytes(v / 256)
  }

  function Size(nCompact: nat): nat {
    nCompact / 0x100_0000
  }

  function Word(nCompact: nat): nat {
    nCompact % 0x80_0000
  }

  predicate SignBit(nCompact: nat) {
    nCompact / 0x80_0000 % 2 == 1
  }

  function Join(nWord: nat, nSize: nat): nat {
    nWord + nSize * 0x100_0000
  }

  /** The magnitude that a compact form stands for; its 24th bit is the sign and not part of it. */
  function Decode(nCompact: nat): nat {
    var nSize, nWord := Size(nCompact), Word(nCompact);
    if nSize <= 3 then Shr(nWord, 8 * (3 - nSize)) else Shl(nWord, 8 * (nSize - 3))
  }

  /** The three leading bytes. */
  function Mantissa(v: nat): nat {
    var nSize := NumBytes(v);
    if nSize <= 3 then Shl(v, 8 * (3 - nSize)) else Shr(v, 8 * (nSize - 3))
  }

  function Encode(v: nat): nat {
    var nSize, m := NumBytes(v), Mantissa(v);
    if SignBit(m) then Join(m / 256, (nSize + 1) % 256) else Join(m, nSize % 256)
  }

  /** What encoding yields: no sign, no leading zero byte, nothing beyond the last whole byte. */
  predicate Canonical(nCompact: nat) {
    var nSize, nWord := Size(nCompact), Word(nCompact);
    && 1 <= nSize < 256 && !SignBit(nCompact) && nWord >= 0x8000
    && (nSize == 1 ==> nWord % 0x1_0000 == 0) && (nSize == 2 ==> nWord % 0x100 == 0)
  }

  /** How many low bytes are given up. */
  function Units(v: nat): nat {
    if v < 0x80_0000 then 0 else 1 + Units(v / 256)
  }

  /** Numbers whose size still fits into one byte. */
  predicate Fits(v: nat) {
    Units(v) <= 252
  }

  // ---- bytes ----

  lemma JoinParts(nWord: nat, nSize: nat)
    requires nWord < 0x80_0000
    ensures Size(Join(nWord, nSize)) == nSize && Word(Join(nWord, nSize)) == nWord && !SignBit(Join(nWord, nSize))
  {
  }

  lemma PartsJoin(nCompact: nat)
    ensures Word(nCompact) < 0x80_0000
    ensures !SignBit(nCompact) ==> nCompact == Join(Word(nCompact), Size(nCompact))
  {
  }

  /** Dropping one byte more. */
  lemma {:induction false} ShiftByte(v: nat, k: nat)
    ensures Shr(v, 8 * (k + 1)) == Shr(v / 256, 8 * k) == Shr(v, 8 * k) / 256
  {
    hide Shr, Shl;
    ShrAdd(v, 8, 8 * k);
    ShrAdd(v, 8 * k, 8);
    FewBits(v);
    FewBits(Shr(v, 8 * k));
  }

  /** What is left when the units are dropped. */
  lemma {:induction false} Leading(v: nat)
    requires v >= 0x80_0000
    ensures Units(v) >= 1 && 0x8000 <= Shr(v, 8 * Units(v)) < 0x80_0000
    ensures NumBytes(v) == Units(v) + (if Shr(v, 8 * Units(v)) < 0x1_0000 then 2 else 3)
  {
    hide Shr;
    var u := Units(v);
    ShiftByte(v, u - 1);
    if v / 256 >= 0x80_0000 {
      Leading(v / 256);
    } else {
      FewBits(v / 256);
      FewBytes(v / 256);
    }
  }

  lemma {:induction false} FewBytes(v: nat)
    requires v < 0x100_0000
    ensures NumBytes(v) == if v == 0 then 0 else if v < 0x100 then 1 else if v < 0x1_0000 then 2 else 3
  {
    assert NumBytes(v) == if v == 0 then 0 else 1 + NumBytes(v / 256);
    assert NumBytes(v / 256) == if v / 256 == 0 then 0 else 1 + NumBytes(v / 256 / 256);
    assert NumBytes(v / 256 / 256) == if v / 256 / 256 == 0 then 0 else 1 + NumBytes(v / 256 / 256 / 256);
  }

  lemma EncodeSmall(v: nat)
    requires 0 < v < 0x80_0000
    ensures Encode(v)
              == if v < 0x80 then Join(v * 0x1_0000, 1) else if v < 0x8000 then Join(v * 0x100, 2) else Join(v, 3)
  {
    hide Shl, Shr, NumBytes;
    FewBytes(v);
    FewBits(v);
  }

  lemma {:induction false} EncodeLarge(v: nat)
    requires v >= 0x80_0000 && Fits(v)
    ensures 0x8000 <= Shr(v, 8 * Units(v)) < 0x80_0000
    ensures Encode(v) == Join(Shr(v, 8 * Units(v)), Units(v) + 3)
  {
    hide Shl, Shr, NumBytes, Mantissa, SignBit;
    Leading(v);
    var q := Shr(v, 8 * Units(v));
    MantissaLarge(v);
    if q < 0x1_0000 {
      TopBit(Mantissa(v), q);
    } else {
      NoTopBit(q);
    }
  }

  lemma {:induction false} MantissaLarge(v: nat)
    requires v >= 0x80_0000
    ensures var q := Shr(v, 8 * Units(v)); if q < 0x1_0000 then Mantissa(v) / 256 == q else Mantissa(v) == q
  {
    hide Shl, Shr, NumBytes;
    Leading(v);
    ShiftByte(v, Units(v) - 1);
    NoBits(v);
  }

  lemma {:induction false} NoBits(v: nat)
    ensures Shl(v, 0) == v == Shr(v, 0)
  {
  }

  lemma NoTopBit(q: nat)
    requires q < 0x80_0000
    ensures !SignBit(q)
  {
  }

  lemma TopBit(m: nat, q: nat)
    requires m / 256 == q && 0x8000 <= q < 0x1_0000
    ensures SignBit(m)
  {
  }

  // ---- the laws of the compact form ----

  /** Encoding keeps the leading bytes: never more than the number, and less by under one part in 2^15. */
  lemma {:induction false} Rounding(v: nat)
    requires Fits(v)
    ensures Decode(Encode(v)) == Shl(Shr(v, 8 * Units(v)), 8 * Units(v))
    ensures v < 0x80_0000 ==> Decode(Encode(v)) == v
    ensures Decode(Encode(v)) <= v
    ensures v > 0 ==> (v - Decode(Encode(v))) * 0x8000 < v
  {
    hide Shl, Shr, Encode, Size, Word, SignBit, Join;
    var n := 8 * Units(v);
    if v == 0 {
      EncodeZero();
      FewBits(0);
    } else if v < 0x80_0000 {
      SmallRoundTrip(v);
      FewBits(v);
    } else {
      EncodeLarge(v);
      JoinParts(Shr(v, n), Units(v) + 3);
      ShlShr(v, n);
      LossBound(v, Shr(v, n), n);
    }
  }

  lemma EncodeZero()
    ensures Encode(0) == 0 && Decode(0) == 0
  {
    FewBits(0);
  }

  lemma SmallRoundTrip(v: nat)
    requires 0 < v < 0x80_0000
    ensures Decode(Encode(v)) == v
  {
    hide Shl, Shr, Encode, Size, Word, SignBit, Join;
    EncodeSmall(v);
    if v < 0x80 {
      JoinParts(v * 0x1_0000, 1);
      FewBits(v * 0x1_0000);
    } else if v < 0x8000 {
      JoinParts(v * 0x100, 2);
      FewBits(v * 0x100);
    } else {
      JoinParts(v, 3);
      FewBits(v);
    }
  }

  lemma {:induction false} LossBound(v: nat, q: nat, n: nat)
    requires q >= 0x8000 && Shl(q, n) <= v < Shl(q, n) + Pow2(n)
    ensures (v - Shl(q, n)) * 0x8000 < v
  {
    hide Shl;
    OneShifted(n);
    FewBits(1);
    FewBits(Shl(1, n));
    ShlAdd(1, 15, n);
    ShlAdd(1, n, 15);
    ShlMono(q, 0x8000, n);
  }

  /** No compact form at all is nearer from below. */
  lemma Greatest(nCompact: nat, v: nat)
    requires Fits(v) && Decode(nCompact) <= v
    ensures Decode(nCompact) <= Decode(Encode(v))
  {
    hide Shl, Shr, Encode, Size, Word, SignBit;
    Rounding(v);
    if v >= 0x80_0000 {
      Leading(v);
      var u := Units(v);
      var nSize, nWord := Size(nCompact), Word(nCompact);
      if nSize < 3 + u {
        BelowUnit(nCompact, u);
        ShlMono(Shr(v, 8 * u), 0x8000, 8 * u);
      } else {
        var k := 8 * (nSize - 3) - 8 * u;
        ShlAdd(nWord, k, 8 * u);
        FewBits(nWord);
        ShiftsMeet(Shl(nWord, k), v, 8 * u);
        ShlMono(Shr(v, 8 * u), Shl(nWord, k), 8 * u);
      }
    }
  }

  lemma {:induction false} BelowUnit(nCompact: nat, u: nat)
    requires u >= 1 && Size(nCompact) < 3 + u
    ensures Decode(nCompact) < Shl(0x8000, 8 * u)
  {
    hide Shl, Shr, Size, Word;
    var nSize, nWord := Size(nCompact), Word(nCompact);
    PartsJoin(nCompact);
    FewBits(0x8000);
    ShlAdd(0x8000, 8, 8 * (u - 1));
    ShlGrows(0x80_0000, 0, 8 * (u - 1));
    FewBits(0x80_0000);
    if nSize > 3 {
      ShlMono(nWord, 0x80_0000, 8 * (nSize - 3));
      ShlGrows(0x80_0000, 8 * (nSize - 3), 8 * (u - 1));
    }
  }

  /** Encoding a positive number yields a canonical form. */
  lemma EncodeCanonical(v: nat)
    requires v > 0 && Fits(v)
    ensures Canonical(Encode(v))
  {
    hide Shl, Shr, Encode, Size, Word, SignBit, Join;
    if v < 0x80 {
      EncodeSmall(v);
      JoinParts(v * 0x1_0000, 1);
    } else if v < 0x8000 {
      EncodeSmall(v);
      JoinParts(v * 0x100, 2);
    } else if v < 0x80_0000 {
      EncodeSmall(v);
      JoinParts(v, 3);
    } else {
      EncodeLarge(v);
      JoinParts(Shr(v, 8 * Units(v)), Units(v) + 3);
    }
  }

  lemma {:induction false} UnitsIs(q: nat, u: nat)
    requires 0x8000 <= q < 0x80_0000 && u >= 1
    ensures Shl(q, 8 * u) >= 0x80_0000 && Units(Shl(q, 8 * u)) == u
    decreases u
  {
    hide Shl, Shr;
    ShlAdd(q, 8 * (u - 1), 8);
    FewBits(Shl(q, 8 * (u - 1)));
    if u > 1 {
      UnitsIs(q, u - 1);
    } else {
      FewBits(q);
    }
  }

  lemma {:induction false} UnitsBelow(v: nat, k: nat)
    requires v < Shl(0x80_0000, 8 * k)
    ensures Units(v) <= k
    decreases k
  {
    hide Shl;
    if v >= 0x80_0000 {
      FewBits(0x80_0000);
      assert k > 0;
      ShlAdd(0x80_0000, 8 * (k - 1), 8);
      FewBits(Shl(0x80_0000, 8 * (k - 1)));
      UnitsBelow(v / 256, k - 1);
    }
  }

  /** Decoding and encoding again gives back exactly the canonical forms. */
  lemma DecodeThenEncode(nCompact: nat)
    requires nCompact < 0x1_0000_0000
    ensures Fits(Decode(nCompact))
    ensures Encode(Decode(nCompact)) == nCompact && Decode(nCompact) > 0 <==> Canonical(nCompact)
  {
    hide Shl, Shr, Encode, Decode, Size, Word, SignBit, Join, Canonical;
    DecodeFits(nCompact);
    if Decode(nCompact) > 0 {
      EncodeCanonical(Decode(nCompact));
    }
    if Canonical(nCompact) {
      CanonicalRoundTrip(nCompact);
    }
  }

  lemma CanonicalRoundTrip(nCompact: nat)
    requires Canonical(nCompact) && Fits(Decode(nCompact))
    ensures Encode(Decode(nCompact)) == nCompact && Decode(nCompact) > 0
  {
    hide Shl, Shr, Encode, Size, Word, SignBit, Join;
    var nSize, nWord := Size(nCompact), Word(nCompact);
    PartsJoin(nCompact);
    FewBits(nWord);
    if nSize > 3 {
      UnitsIs(nWord, nSize - 3);
      EncodeLarge(Shl(nWord, 8 * (nSize - 3)));
      ShrShl(nWord, 8 * (nSize - 3));
    } else {
      EncodeSmall(Decode(nCompact));
    }
  }

  lemma DecodeFits(nCompact: nat)
    requires nCompact < 0x1_0000_0000
    ensures Fits(Decode(nCompact))
  {
    hide Shl, Shr, Decode;
    BelowUnit(nCompact, 253);
    ShlAdd(0x8000, 8, 8 * 252);
    FewBits(0x8000);
    UnitsBelow(Decode(nCompact), 252);
  }

  /** Encoding keeps the order. */
  lemma EncodeMonotone(u: nat, v: nat)
    requires u <= v && Fits(u) && Fits(v)
    ensures Decode(Encode(u)) <= Decode(Encode(v))
  {
    Rounding(u);
    Greatest(Encode(u), v);
  }

  /** Canonical forms stand in the order of the numbers they stand for. */
  lemma CanonicalOrder(a: nat, b: nat)
    requires Canonical(a) && Canonical(b)
    ensures a < b <==> Decode(a) < Decode(b)
  {
    hide Decode, Canonical;
    if a < b {
      CanonicalLess(a, b);
    } else if b < a {
      CanonicalLess(b, a);
    }
  }

  lemma CanonicalLess(a: nat, b: nat)
    requires Canonical(a) && Canonical(b) && a < b
    ensures Decode(a) < Decode(b)
  {
    hide Shl, Shr, SignBit;
    var (s, w) := (Size(a), Word(a));
    var (t, x) := (Size(b), Word(b));
    PartsJoin(a);
    PartsJoin(b);
    FewBits(w);
    FewBits(x);
    hide Size, Word;
    if t > 3 {
      if s == t {
        ShlMono(w, x, 8 * (t - 3));
      } else {
        BelowUnit(a, t - 3);
        ShlMono(x, 0x8000, 8 * (t - 3));
      }
    }
  }
}

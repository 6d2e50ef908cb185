/** The per-block retarget: the target follows an exponential of how late the chain is. */
module Phoenix {
  import opened Powers
  import opened Compact
  import opened BigNum

  newtype int64 = x: int | -0x8000_0000_0000_0000 <= x < 0x8000_0000_0000_0000
  newtype uint64 = x: int | 0 <= x < 0x1_0000_0000_0000_0000

  const TARGET_SPACING := 30
  const HALF_LIFE := 12390

  function PowLimit(): nat {
    Pow2(236) - 1
  }

  /** How many seconds behind schedule a chain is whose block `nEvalHeight - 1` has time `nParentTime`. */
  function Lateness(nAnchorParentTime: int, nAnchorHeight: int, nEvalHeight: int, nParentTime: int): int {
    nParentTime - nAnchorParentTime - TARGET_SPACING * (nEvalHeight - nAnchorHeight)
  }

  /** Half-lives behind schedule, in units of 1/65536; the division drops the fraction. */
  function Exponent(late: int): int {
    var nNum := late * 65536;
    if nNum >= 0 then nNum / HALF_LIFE else -(-nNum / HALF_LIFE)
  }

  function Poly(f: nat): nat {
    195766423245049 * f + 971821376 * (f * f) + 5127 * (f * f * f) + 0x8000_0000_0000
  }

  /** About 65536 times 2 to the power f/65536. */
  function Factor(f: nat): nat {
    65536 + Poly(f) / 0x1_0000_0000_0000
  }

  /** A number times a power of two, rounded down. */
  function Scaled(v: nat, net: int): nat {
    if net < 0 then Shr(v, -net) else Shl(v, net)
  }

  function Product(a: nat, b: nat): nat {
    a * b
  }

  /** The target before it is clamped. */
  function Raw(anchor: nat, exponent: int): nat {
    Scaled(Product(anchor, Factor(exponent % 65536)), exponent / 65536 - 16)
  }

  function Clamp(t: nat): nat {
    if t == 0 then 1 else if t > PowLimit() then PowLimit() else t
  }

  function Next(nAnchorBits: nat, late: int): nat {
    Encode(Clamp(Raw(Decode(nAnchorBits), Exponent(late))))
  }

  // ---- the factor ----

  lemma TimesGrows(a: nat, b: nat, c: nat)
    requires a <= b
    ensures a * c <= b * c
  {
    var d := b - a;
    assert (a + d) * c == a * c + d * c;
  }

  lemma CubesGrow(f: nat, g: nat)
    requires f <= g
    ensures f * f <= g * g && f * f * f <= g * g * g
  {
    TimesGrows(f, g, f);
    TimesGrows(f, g, g);
    TimesGrows(f * f, g * g, f);
    TimesGrows(f, g, g * g);
  }

  /** The factor grows from 1 to just under 2, in units of 1/65536, and its polynomial fits into 64 bits. */
  lemma FactorFacts(f: nat)
    requires f < 65536
    ensures Factor(0) == 65536 <= Factor(f) <= 131071 && Poly(f) < 0x1_0000_0000_0000_0000
    ensures f * f < 0x1_0000_0000 && f * f * f < 0x1_0000_0000_0000
  {
    CubesGrow(f, 65535);
  }

  lemma FactorIs(f: nat, f2: nat, f3: nat)
    requires f2 == f * f && f3 == f * f * f
    ensures Factor(f)
         == 65536 + (195766423245049 * f + 971821376 * f2 + 5127 * f3 + 0x8000_0000_0000) / 0x1_0000_0000_0000
  {
  }

  lemma PolyGrows(f: nat, f2: nat, f3: nat, g: nat, g2: nat, g3: nat)
    requires f <= g && f2 <= g2 && f3 <= g3
    ensures 195766423245049 * f + 971821376 * f2 + 5127 * f3 <= 195766423245049 * g + 971821376 * g2 + 5127 * g3
  {
  }

  // ---- scaling ----

  lemma ScaledMono(u: nat, v: nat, net: int)
    requires u <= v
    ensures Scaled(u, net) <= Scaled(v, net)
  {
    hide Shl, Shr;
    if net < 0 {
      ShrMono(u, v, -net);
    } else {
      ShlMono(v, u, net);
    }
  }

  /** Twice the number, or one power more. */
  lemma ScaledTwice(v: nat, net: int)
    ensures Scaled(2 * v, net) == Scaled(v, net + 1)
  {
    hide Shl, Shr;
    FewBits(v);
    if net < 0 {
      ShrAdd(2 * v, 1, -net - 1);
      ShrShl(v, 1);
      FewBits(Shr(v, -net - 1));
    } else {
      ShlAdd(v, 1, net);
    }
  }

  lemma {:induction false} ScaledGrows(v: nat, a: int, b: int)
    requires a <= b
    ensures Scaled(v, a) <= Scaled(v, b)
    decreases b - a
  {
    hide Scaled;
    if a < b {
      ScaledTwice(v, a);
      ScaledMono(v, 2 * v, a);
      ScaledGrows(v, a + 1, b);
    }
  }

  /** The target grows with the exponent, also where the fraction wraps around. */
  lemma RawGrows(anchor: nat, e: int, f: int)
    requires e <= f
    ensures Raw(anchor, e) <= Raw(anchor, f)
  {
    hide Scaled, Factor;
    var (s, t) := (e / 65536, f / 65536);
    var (p, q) := (Factor(e % 65536), Factor(f % 65536));
    FactorFacts(e % 65536);
    FactorFacts(f % 65536);
    if s == t {
      var (x, y) := (e % 65536, f % 65536);
      CubesGrow(x, y);
      FactorIs(x, x * x, x * x * x);
      FactorIs(y, y * y, y * y * y);
      PolyGrows(x, x * x, x * x * x, y, y * y, y * y * y);
      TimesGrows(p, q, anchor);
      ScaledMono(Product(anchor, p), Product(anchor, q), s - 16);
    } else {
      TimesGrows(p, 2 * q, anchor);
      assert 2 * q * anchor == 2 * (anchor * q);
      ScaledMono(Product(anchor, p), 2 * Product(anchor, q), s - 16);
      ScaledTwice(Product(anchor, q), s - 16);
      ScaledGrows(Product(anchor, q), s - 15, t - 16);
    }
  }

  // ---- the laws of the retarget ----

  lemma ClampFits(t: nat)
    ensures 0 < Clamp(t) <= PowLimit() && Fits(Clamp(t))
  {
    hide Pow2;
    LimitFits();
    UnitsBelow(Clamp(t), 27);
  }

  lemma LimitFits()
    ensures 0 < PowLimit() < Shl(0x80_0000, 8 * 27)
  {
    hide Shl, Pow2;
    FewBits(1);
    ShlAdd(1, 23, 8 * 27);
    ShlAdd(1, 1, 235);
    ShlGrows(1, 236, 23 + 8 * 27);
    OneShifted(236);
  }

  /** Whatever the anchor and the times, the result is a canonical form of a positive target within the limit: it
      passes the range test of the proof-of-work check. */
  lemma InRange(nAnchorBits: nat, late: int)
    ensures var r := Next(nAnchorBits, late);
            Canonical(r) && r < 0x1_0000_0000 && 0 < Signed(r) == Decode(r) <= PowLimit()
  {
    hide Encode, Decode, Clamp, Raw, Exponent, Pow2;
    var t := Clamp(Raw(Decode(nAnchorBits), Exponent(late)));
    ClampFits(Raw(Decode(nAnchorBits), Exponent(late)));
    EncodeCanonical(t);
    Rounding(t);
    Rounding(1);
    EncodeMonotone(1, t);
  }

  /** The later the chain, the easier the next block: both as a target and as a compact form. */
  lemma LaterIsEasier(nAnchorBits: nat, late: int, later: int)
    requires late <= later
    ensures Decode(Next(nAnchorBits, late)) <= Decode(Next(nAnchorBits, later))
    ensures Next(nAnchorBits, late) <= Next(nAnchorBits, later)
  {
    hide Encode, Decode, Raw, Canonical;
    var (e, f) := (Exponent(late), Exponent(later));
    var (s, t) := (Raw(Decode(nAnchorBits), e), Raw(Decode(nAnchorBits), f));
    RawGrows(Decode(nAnchorBits), e, f);
    ClampFits(s);
    ClampFits(t);
    EncodeMonotone(Clamp(s), Clamp(t));
    InRange(nAnchorBits, late);
    InRange(nAnchorBits, later);
    CanonicalOrder(Next(nAnchorBits, later), Next(nAnchorBits, late));
  }

  lemma ParentTimeAndHeight(nAnchorBits: nat, aTime: int, aHeight: int, height: int, time: int, lower: int, later: int)
    requires lower <= height && time <= later
    ensures Decode(Next(nAnchorBits, Lateness(aTime, aHeight, height, time)))
         <= Decode(Next(nAnchorBits, Lateness(aTime, aHeight, lower, later)))
  {
    LaterIsEasier(nAnchorBits, Lateness(aTime, aHeight, height, time), Lateness(aTime, aHeight, lower, later));
  }

  lemma OnTime(anchor: nat)
    ensures Raw(anchor, Exponent(0)) == anchor
  {
    hide Shl, Shr;
    FactorFacts(0);
    FewBits(anchor);
    assert anchor * 65536 == Shl(anchor, 16);
    ShrShl(anchor, 16);
  }

  /** A chain on schedule, `k` blocks on, keeps the anchor's target exactly if that is in canonical form and within
      the limit. */
  lemma OnSchedule(nAnchorBits: nat, nAnchorParentTime: int, nAnchorHeight: int, k: nat)
    requires nAnchorBits < 0x1_0000_0000
    ensures Next(nAnchorBits, Lateness(nAnchorParentTime, nAnchorHeight, nAnchorHeight + k,
                                       nAnchorParentTime + TARGET_SPACING * k)) == nAnchorBits
       <==> Canonical(nAnchorBits) && Decode(nAnchorBits) <= PowLimit()
  {
    hide Encode, Decode, Raw, Canonical, Pow2;
    OnTime(Decode(nAnchorBits));
    InRange(nAnchorBits, 0);
    DecodeThenEncode(nAnchorBits);
  }

  /** One half-life later the exponent is one whole unit higher, exactly when no rounding towards zero comes between:
      the chain is not ahead before, or still ahead afterwards, or the fraction is none. Otherwise it is short
      by 1/65536. */
  lemma HalfLifeLater(late: int)
    ensures Exponent(late + HALF_LIFE) == Exponent(late) + 65536 <==>
            late >= 0 || late <= -HALF_LIFE || late % 6195 == 0
    ensures Exponent(late + HALF_LIFE) == Exponent(late) + 65536 || Exponent(late + HALF_LIFE) == Exponent(late) + 65535
  {
    if -HALF_LIFE < late < 0 {
      AcrossSchedule(-late);
    }
  }

  lemma AcrossSchedule(x: int)
    requires 0 < x < HALF_LIFE
    ensures Exponent(HALF_LIFE - x) == Exponent(-x) + 65536 - if x % 6195 == 0 then 0 else 1
  {
    var y := x * 65536;
    WholeIff(x);
    assert (HALF_LIFE - x) * 65536 == 65536 * HALF_LIFE - y && -x * 65536 == -y;
    assert (65536 * HALF_LIFE - y) / HALF_LIFE == 65536 - y / HALF_LIFE - if y % HALF_LIFE == 0 then 0 else 1;
  }

  lemma WholeIff(x: int)
    requires 0 < x < HALF_LIFE
    ensures x * 65536 % HALF_LIFE == 0 <==> x % 6195 == 0
  {
    if x % 6195 == 0 {
      assert x == 6195;
    } else if x * 65536 % HALF_LIFE == 0 {
      WholeOnly(x);
    }
  }

  lemma WholeOnly(x: nat)
    requires x * 65536 % 12390 == 0
    ensures x % 6195 == 0
  {
    var q := x * 65536 / 12390;
    assert x * 32768 == q * 6195;
    assert x * 32768 * 4502 == 6195 * (x * 23813) + x;
    assert x == 6195 * (q * 4502 - x * 23813);
  }

  /** One unit more of the exponent doubles the target, up to the bit that was rounded off. */
  lemma UnitDoubles(anchor: nat, e: int)
    ensures 2 * Raw(anchor, e) <= Raw(anchor, e + 65536) <= 2 * Raw(anchor, e) + 1
    ensures e >= 16 * 65536 ==> Raw(anchor, e + 65536) == 2 * Raw(anchor, e)
  {
    hide Shl, Shr, Factor;
    var v, net := Product(anchor, Factor(e % 65536)), e / 65536 - 16;
    FewBits(v);
    assert (e + 65536) % 65536 == e % 65536 && (e + 65536) / 65536 == e / 65536 + 1;
    if net < 0 {
      ShrAdd(v, -net - 1, 1);
      OneBitOff(Shr(v, -net - 1));
    } else {
      ShlAdd(v, net, 1);
      FewBits(Shl(v, net));
    }
  }

  lemma {:induction false} OneBitOff(v: nat)
    ensures 2 * Shr(v, 1) <= v <= 2 * Shr(v, 1) + 1
  {
  }

  // ---- the functions over big numbers ----

  method SetPowLimit(bn: CBigNum)
    modifies bn
    ensures bn.n == PowLimit() && !bn.negative
  {
    hide Shl, Pow2;
    bn.SetWord(1);
    bn.LeftShift(236);
    OneShifted(236);
    bn.SubWord(1);
  }

  method SetCompact(bn: CBigNum, nCompact: nat)
    modifies bn
    ensures bn.n == Decode(nCompact) && !bn.negative
  {
    hide Shl, Shr;
    var nSize, nWord := nCompact / 0x100_0000, nCompact % 0x80_0000;
    if nSize <= 3 {
      nWord := Shr(nWord, 8 * (3 - nSize));
      bn.SetWord(nWord);
    } else {
      bn.SetWord(nWord);
      bn.LeftShift(8 * (nSize - 3));
    }
  }

  method GetCompact(bn: CBigNum) returns (nCompact: nat)
    requires Fits(bn.n)
    ensures nCompact == Encode(bn.n)
  {
    hide Shl, Shr;
    var nSize := NumBytes(bn.n);
    if nSize <= 3 {
      nCompact := Shl(bn.n, 8 * (3 - nSize));
    } else {
      var bn2 := new CBigNum();
      bn2.RightShift(bn, 8 * (nSize - 3));
      nCompact := bn2.n;
    }
    if SignBit(nCompact) {
      nCompact := nCompact / 256;
      nSize := nSize + 1;
    }
    nCompact := nCompact + nSize % 256 * 0x100_0000;
  }

  /** The exponent in 64-bit arithmetic, which it never exceeds for 32-bit times and heights. */
  method ExponentOf(nAnchorParentTime: int64, nAnchorHeight: int64, nEvalHeight: int64, nParentTime: int64)
      returns (nExponent: int64)
    requires 0 <= nAnchorParentTime < 0x1_0000_0000 && 0 <= nParentTime < 0x1_0000_0000
    requires 0 <= nAnchorHeight < 0x8000_0000 && 0 <= nEvalHeight < 0x8000_0000
    ensures nExponent as int
         == Exponent(Lateness(nAnchorParentTime as int, nAnchorHeight as int, nEvalHeight as int, nParentTime as int))
    ensures -0x100_0000_0000 < nExponent < 0x100_0000_0000
  {
    var nTimeDiff := nParentTime - nAnchorParentTime;
    var nHeightDiff := nEvalHeight - 1 - nAnchorHeight;
    var nNum := (nTimeDiff - 30 * (nHeightDiff + 1)) * 65536;
    nExponent := if nNum >= 0 then nNum / 12390 else -(-nNum / 12390);
  }

  /** The factor in unsigned 64-bit arithmetic. */
  method FactorOf(nFrac: uint64) returns (nFactor: uint64)
    requires nFrac < 65536
    ensures nFactor as int == Factor(nFrac as int) && 65536 <= nFactor <= 131071
  {
    hide Factor;
    FactorTerms(nFrac as int, nFrac as int * nFrac as int, nFrac as int * nFrac as int * nFrac as int);
    var square: uint64 := nFrac * nFrac;
    var cube: uint64 := square * nFrac;
    var sum: uint64 := 195766423245049 * nFrac + 971821376 * square;
    sum := sum + 5127 * cube;
    nFactor := 65536 + (sum + 0x8000_0000_0000) / 0x1_0000_0000_0000;
  }

  lemma FactorTerms(f: nat, f2: nat, f3: nat)
    requires f < 65536 && f2 == f * f && f3 == f2 * f
    ensures f2 < 0x1_0000_0000 && f3 < 0x1_0000_0000_0000
    ensures 195766423245049 * f + 971821376 * f2 + 5127 * f3 + 0x8000_0000_0000 < 0x1_0000_0000_0000_0000
    ensures Factor(f)
              == 65536 + (195766423245049 * f + 971821376 * f2 + 5127 * f3 + 0x8000_0000_0000) / 0x1_0000_0000_0000
    ensures 65536 <= Factor(f) <= 131071
  {
    FactorFacts(f);
    hide Poly;
    assert f3 == f * f * f;
    PolyIs(f);
  }

  lemma PolyIs(f: nat)
    ensures Poly(f) == 195766423245049 * f + 971821376 * (f * f) + 5127 * (f * f * f) + 0x8000_0000_0000
  {
  }

  method NextCompact(nAnchorBits: nat, nAnchorParentTime: int64, nAnchorHeight: int64, nEvalHeight: int64,
                     nParentTime: int64)
      returns (nResult: nat)
    requires 0 <= nAnchorParentTime < 0x1_0000_0000 && 0 <= nParentTime < 0x1_0000_0000
    requires 0 <= nAnchorHeight < 0x8000_0000 && 0 <= nEvalHeight < 0x8000_0000
    ensures nResult == Next(nAnchorBits, Lateness(nAnchorParentTime as int, nAnchorHeight as int,
                                                  nEvalHeight as int, nParentTime as int))
  {
    hide Encode, Decode, Factor, Exponent, Lateness, PowLimit;
    var nExponent := ExponentOf(nAnchorParentTime, nAnchorHeight, nEvalHeight, nParentTime);
    var nShifts := nExponent / 65536;
    var nFrac := (nExponent % 65536) as uint64;
    var nFactor := FactorOf(nFrac);
    var bnTarget := new CBigNum();
    SetCompact(bnTarget, nAnchorBits);
    bnTarget.MulWord(nFactor as int);
    var nNet := nShifts - 16;
    if nNet < 0 {
      bnTarget.RightShift(bnTarget, -nNet as int);
    } else if nNet > 0 {
      bnTarget.LeftShift(nNet as int);
    }
    ghost var raw := Raw(Decode(nAnchorBits), nExponent as int);
    FewBits(bnTarget.n);
    assert bnTarget.n == raw;
    if bnTarget.n == 0 {
      bnTarget.SetWord(1);
    }
    var bnLimit := new CBigNum();
    SetPowLimit(bnLimit);
    ClampFits(raw);
    if bnTarget.n > bnLimit.n {
      bnTarget.Copy(bnLimit);
    }
    nResult := GetCompact(bnTarget);
  }

  /** Range and hash of a block header against its compact target. */
  method CheckProofOfWork(hash: nat, nBits: nat) returns (ok: bool)
    ensures ok <==> 0 < Signed(nBits) <= PowLimit() && hash <= Signed(nBits)
  {
    var bnTarget := new CBigNum();
    bnTarget.SetCompact(nBits);
    if bnTarget.Value() <= 0 || bnTarget.Value() > PowLimit() {
      return false;
    }
    if hash > bnTarget.Value() {
      return false;
    }
    ok := true;
  }
}

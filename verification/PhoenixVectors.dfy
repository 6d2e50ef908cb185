/** The published test vectors of the retarget, all 45 of them, from its formula. */
module PhoenixVectors {
  import opened Powers
  import opened Compact
  import opened Phoenix

  /** A factor of 256 is a one in the size. */
  lemma {:induction false} EncodeShifted(x: nat, k: nat)
    requires x >= 0x80_0000 && Fits(Shl(x, 8 * k))
    ensures Units(Shl(x, 8 * k)) == Units(x) + k && Fits(x)
    ensures Encode(Shl(x, 8 * k)) == Encode(x) + k * 0x100_0000
  {
    hide Shl, Shr, Encode;
    UnitsShifted(x, k);
    EncodeLarge(x);
    EncodeLarge(Shl(x, 8 * k));
    ShrAdd(Shl(x, 8 * k), 8 * k, 8 * Units(x));
    ShrShl(x, 8 * k);
  }

  lemma {:induction false} UnitsShifted(x: nat, k: nat)
    requires x >= 0x80_0000
    ensures Units(Shl(x, 8 * k)) == Units(x) + k
    decreases k
  {
    hide Shl;
    if k == 0 {
      NoShift(x);
    } else {
      ShlAdd(x, 8 * (k - 1), 8);
      FewBits(Shl(x, 8 * (k - 1)));
      UnitsShifted(x, k - 1);
    }
  }

  lemma {:induction false} NoShift(x: nat)
    ensures Shl(x, 0) == x
  {
  }

  lemma {:induction false} ProductShifted(w: nat, n: nat, factor: nat)
    ensures Product(Shl(w, n), factor) == Shl(Product(w, factor), n)
  {
    if n > 0 {
      ProductShifted(w, n - 1, factor);
      TwiceProduct(Shl(w, n - 1), factor);
    }
  }

  lemma TwiceProduct(a: nat, b: nat)
    ensures Product(2 * a, b) == 2 * Product(a, b)
  {
  }

  /** The target of an anchor `w` times two to the power `d`, before it is clamped. */
  lemma {:induction false} RawIs(w: nat, d: nat, e: int, factor: nat, m: nat)
    requires factor == Factor(e % 65536) && m == d + e / 65536 - 16
    ensures Raw(Shl(w, d), e) == Shl(Product(w, factor), m)
  {
    hide Shl, Shr, Factor, Product;
    var v := Product(w, factor);
    ProductShifted(w, d, factor);
    if e / 65536 < 16 {
      ShlAdd(v, m, d - m);
      ShrShl(Shl(v, m), d - m);
    } else {
      ShlAdd(v, d, m - d);
    }
  }

  lemma {:induction false} Shifts(v: nat)
    ensures Shl(v, 0) == v && Shl(v, 1) == 2 * v && Shl(v, 2) == 4 * v && Shl(v, 3) == 8 * v
    ensures Shl(v, 4) == 16 * v && Shl(v, 5) == 32 * v && Shl(v, 6) == 64 * v && Shl(v, 7) == 128 * v
  {
  }

  lemma PowerOf36()
    ensures Shl(1, 36) == 0x10_0000_0000 && Shl(1, 37) == 0x20_0000_0000 && Shl(1, 32) == 0x1_0000_0000
  {
    hide Shl;
    FewBits(1);
    EightBits(Shl(1, 24));
    FourBits(Shl(1, 32));
    ShlAdd(1, 24, 8);
    ShlAdd(1, 32, 4);
    FourBits(Shl(1, 36));
    ShlAdd(1, 36, 1);
  }

  /** A target of so few bits is within the limit. */
  lemma {:induction false} Within(v: nat, bits: nat, m: nat)
    requires v < Shl(1, bits) && bits + m <= 236
    ensures Shl(v, m) <= PowLimit()
  {
    hide Shl, Pow2;
    ShlSum(v, 1, m);
    ShlMono(v + 1, Shl(1, bits), m);
    ShlAdd(1, bits, m);
    ShlGrows(1, bits + m, 236);
    OneShifted(236);
    ShlMono(1, 1, m);
    AtLeastOne(m);
  }

  lemma {:induction false} AtLeastOne(m: nat)
    ensures Shl(1, m) >= 1
  {
    if m > 0 {
      AtLeastOne(m - 1);
    }
  }

  /** And one of so many bits is beyond it. */
  lemma {:induction false} Beyond(v: nat, bits: nat, m: nat)
    requires v >= Shl(1, bits) && bits + m >= 236
    ensures Shl(v, m) > PowLimit()
  {
    hide Shl, Pow2;
    ShlMono(Shl(1, bits), v, m);
    ShlAdd(1, bits, m);
    ShlGrows(1, 236, bits + m);
    OneShifted(236);
  }

  lemma EncodeMiddle(x: nat)
    requires 0x8000_0000 <= x < 0x8000_0000_0000
    ensures Encode(x) == if x < 0x80_0000_0000 then x / 0x1_0000 + 0x500_0000 else x / 0x100_0000 + 0x600_0000
  {
    hide Shl, Shr, Encode;
    assert Units(x) == 1 + Units(x / 256) && Units(x / 256) == 1 + Units(x / 256 / 256);
    assert Units(x / 256 / 256) == if x < 0x80_0000_0000 then 0 else 1 + Units(x / 256 / 256 / 256);
    EncodeLarge(x);
    FewBits(x);
    FewBits(Shr(x, 16));
    ShrAdd(x, 16, 8);
  }

  lemma ExponentIs(late: int, e: int)
    requires if late >= 0 then e * HALF_LIFE <= late * 65536 < (e + 1) * HALF_LIFE
             else -e * HALF_LIFE <= -late * 65536 < (-e + 1) * HALF_LIFE
    ensures Exponent(late) == e
  {
  }

  // ---- the anchors ----

  predicate IsAnchor(bits: nat, w: nat, d: nat) {
    || (bits == 0x1d00_ffff && w == 0xffff && d == 208)
    || (bits == 0x1e0f_ffff && w == 0xf_ffff && d == 216)
    || (bits == 0x1b04_864c && w == 0x4_864c && d == 192)
    || (bits == 0x1c05_a3f4 && w == 0x5_a3f4 && d == 200)
  }

  lemma {:induction false} AnchorIs(bits: nat, w: nat, d: nat)
    requires IsAnchor(bits, w, d)
    ensures Decode(bits) == Shl(w, d)
  {
    hide Shl;
    assert Word(bits) == w && 8 * (Size(bits) - 3) == d;
  }

  /** One published vector. */
  predicate Holds(bits: nat, anchorTime: int, anchorHeight: int, evalHeight: int, parentTime: int, expected: nat) {
    Next(bits, Lateness(anchorTime, anchorHeight, evalHeight, parentTime)) == expected
  }

  /** Where the target is within the limit: from the exponent `e` and its factor, with the bits of the product that come
      before whole bytes shifted in. */
  lemma {:induction false} Unclamped(bits: nat, w: nat, d: nat, late: int, e: int, factor: nat, k: nat, r: nat, x: nat)
    requires IsAnchor(bits, w, d) && Exponent(late) == e && factor == Factor(e % 65536)
    requires d + e / 65536 - 16 == 8 * k + r && r < 8 && x == Shl(w * factor, r) && 0x8000_0000 <= x < 0x8000_0000_0000
    requires 8 * k + r <= 199 && w * factor < (if 8 * k + r == 199 then 0x20_0000_0000 else 0x10_0000_0000)
    ensures Next(bits, late)
         == k * 0x100_0000 + if x < 0x80_0000_0000 then x / 0x1_0000 + 0x500_0000 else x / 0x100_0000 + 0x600_0000
  {
    hide Shl, Encode, Factor, Exponent, Pow2, Decode;
    var v := Product(w, factor);
    AnchorIs(bits, w, d);
    RawIs(w, d, e, factor, 8 * k + r);
    ShlAdd(v, r, 8 * k);
    PowerOf36();
    Within(v, if 8 * k + r == 199 then 37 else 36, 8 * k + r);
    ClampFits(Shl(v, 8 * k + r));
    NotZero(x, 8 * k);
    EncodeShifted(x, k);
    EncodeMiddle(x);
  }

  lemma {:induction false} NotZero(x: nat, n: nat)
    requires x > 0
    ensures Shl(x, n) > 0
  {
    if n > 0 {
      NotZero(x, n - 1);
    }
  }

  /** Where the limit is exceeded. */
  lemma Clamped(bits: nat, w: nat, d: nat, late: int, e: int, factor: nat)
    requires IsAnchor(bits, w, d) && Exponent(late) == e && factor == Factor(e % 65536)
    requires d + e / 65536 >= (if w * factor >= 0x10_0000_0000 then 216 else 220) && w * factor >= 0x1_0000_0000
    ensures Next(bits, late) == 0x1e0f_ffff
  {
    hide Shl, Encode, Factor, Exponent, Pow2, Decode;
    var v, m := Product(w, factor), d + e / 65536 - 16;
    AnchorIs(bits, w, d);
    RawIs(w, d, e, factor, m);
    PowerOf36();
    Beyond(v, if w * factor >= 0x10_0000_0000 then 36 else 32, m);
    LimitPublished();
  }

  // ---- the vectors, by the names they have in the file ----

  /** A chain of which every block takes 30 seconds: the formula, which counts one block more, sees it 30 seconds
      ahead. */
  lemma Steady()
    ensures Holds(0x1d00_ffff, 1600000000, 4500000, 4500001, 1600000000, 0x1d00_ff92)
    ensures Holds(0x1d00_ffff, 1600000000, 4500000, 4500002, 1600000030, 0x1d00_ff92)
    ensures Holds(0x1d00_ffff, 1600000000, 4500000, 4500413, 1600012360, 0x1d00_ff92)
    ensures Holds(0x1d00_ffff, 1600000000, 4500000, 4500414, 1600012390, 0x1d00_ff92)
    ensures Holds(0x1d00_ffff, 1600000000, 4500000, 4510000, 1600299970, 0x1d00_ff92)
  {
    hide Next, Encode, Exponent, Shl;
    ExponentIs(-30, -158);
    assert Factor(65378) == 130854;
    Shifts(0x1_ff24_00da);
    Unclamped(0x1d00_ffff, 0xffff, 208, -30, -158, 130854, 23, 7, 0xff_9200_6d00);
  }

  /** A single block that is early or late. */
  lemma Jitter()
    ensures Holds(0x1d00_ffff, 1600000000, 4500000, 4500002, 1600000001, 0x1d00_ff28)
    ensures Holds(0x1d00_ffff, 1600000000, 4500000, 4500002, 1600000029, 0x1d00_ff8e)
    ensures Holds(0x1d00_ffff, 1600000000, 4500000, 4500002, 1600000031, 0x1d00_ff95)
    ensures Holds(0x1d00_ffff, 1600000000, 4500000, 4500002, 1600000059, 0x1d00_fffb)
    ensures Holds(0x1d00_ffff, 1600000000, 4500000, 4500002, 1600000330, 0x1d01_03e6)
    ensures Holds(0x1d00_ffff, 1600000000, 4500000, 4500002, 1599999730, 0x1d00_fb53)
  {
    hide Next, Encode, Exponent, Shl;
    ExponentIs(-59, -312);
    assert Factor(65224) == 130642;
    Shifts(0x1_fe50_01ae);
    Unclamped(0x1d00_ffff, 0xffff, 208, -59, -312, 130642, 23, 7, 0xff_2800_d700);
    ExponentIs(-31, -163);
    assert Factor(65373) == 130847;
    Shifts(0x1_ff1d_00e1);
    Unclamped(0x1d00_ffff, 0xffff, 208, -31, -163, 130847, 23, 7, 0xff_8e80_7080);
    ExponentIs(-29, -153);
    assert Factor(65383) == 130861;
    Shifts(0x1_ff2b_00d3);
    Unclamped(0x1d00_ffff, 0xffff, 208, -29, -153, 130861, 23, 7, 0xff_9580_6980);
    ExponentIs(-1, -5);
    assert Factor(65531) == 131065;
    Shifts(0x1_fff7_0007);
    Unclamped(0x1d00_ffff, 0xffff, 208, -1, -5, 131065, 23, 7, 0xff_fb80_0380);
    ExponentIs(270, 1428);
    assert Factor(1428) == 66536;
    Shifts(0x1_03e6_fc18);
    Unclamped(0x1d00_ffff, 0xffff, 208, 270, 1428, 66536, 24, 0, 0x1_03e6_fc18);
    ExponentIs(-330, -1745);
    assert Factor(63791) == 128681;
    Shifts(0x1_f6a7_0957);
    Unclamped(0x1d00_ffff, 0xffff, 208, -330, -1745, 128681, 23, 7, 0xfb_5384_ab80);
  }

  /** Whole half-lives behind and ahead. */
  lemma HalfLives()
    ensures Holds(0x1d00_ffff, 1600000000, 4500000, 4500001, 1600012420, 0x1d01_fffe)
    ensures Holds(0x1d00_ffff, 1600000000, 4500000, 4500001, 1599987640, 0x1c7f_ff80)
    ensures Holds(0x1d00_ffff, 1600000000, 4500000, 4500001, 1600024810, 0x1d03_fffc)
    ensures Holds(0x1d00_ffff, 1600000000, 4500000, 4500001, 1599975250, 0x1c3f_ffc0)
    ensures Holds(0x1d00_ffff, 1600000000, 4500000, 4500001, 1600037200, 0x1d07_fff8)
    ensures Holds(0x1d00_ffff, 1600000000, 4500000, 4500001, 1599962860, 0x1c1f_ffe0)
    ensures Holds(0x1d00_ffff, 1600000000, 4500000, 4500001, 1600049590, 0x1d0f_fff0)
    ensures Holds(0x1d00_ffff, 1600000000, 4500000, 4500001, 1599950470, 0x1c0f_fff0)
    ensures Holds(0x1d00_ffff, 1600000000, 4500000, 4500001, 1600061980, 0x1d1f_ffe0)
    ensures Holds(0x1d00_ffff, 1600000000, 4500000, 4500001, 1599938080, 0x1c07_fff8)
  {
    hide Next, Encode, Exponent, Shl;
    ExponentIs(12390, 65536);
    assert Factor(0) == 65536;
    Shifts(0xffff_0000);
    Unclamped(0x1d00_ffff, 0xffff, 208, 12390, 65536, 65536, 24, 1, 0x1_fffe_0000);
    ExponentIs(-12390, -65536);
    assert Factor(0) == 65536;
    Shifts(0xffff_0000);
    Unclamped(0x1d00_ffff, 0xffff, 208, -12390, -65536, 65536, 23, 7, 0x7f_ff80_0000);
    ExponentIs(24780, 131072);
    assert Factor(0) == 65536;
    Shifts(0xffff_0000);
    Unclamped(0x1d00_ffff, 0xffff, 208, 24780, 131072, 65536, 24, 2, 0x3_fffc_0000);
    ExponentIs(-24780, -131072);
    assert Factor(0) == 65536;
    Shifts(0xffff_0000);
    Unclamped(0x1d00_ffff, 0xffff, 208, -24780, -131072, 65536, 23, 6, 0x3f_ffc0_0000);
    ExponentIs(37170, 196608);
    assert Factor(0) == 65536;
    Shifts(0xffff_0000);
    Unclamped(0x1d00_ffff, 0xffff, 208, 37170, 196608, 65536, 24, 3, 0x7_fff8_0000);
    ExponentIs(-37170, -196608);
    assert Factor(0) == 65536;
    Shifts(0xffff_0000);
    Unclamped(0x1d00_ffff, 0xffff, 208, -37170, -196608, 65536, 23, 5, 0x1f_ffe0_0000);
    ExponentIs(49560, 262144);
    assert Factor(0) == 65536;
    Shifts(0xffff_0000);
    Unclamped(0x1d00_ffff, 0xffff, 208, 49560, 262144, 65536, 24, 4, 0xf_fff0_0000);
    ExponentIs(-49560, -262144);
    assert Factor(0) == 65536;
    Shifts(0xffff_0000);
    Unclamped(0x1d00_ffff, 0xffff, 208, -49560, -262144, 65536, 23, 4, 0xf_fff0_0000);
    ExponentIs(61950, 327680);
    assert Factor(0) == 65536;
    Shifts(0xffff_0000);
    Unclamped(0x1d00_ffff, 0xffff, 208, 61950, 327680, 65536, 24, 5, 0x1f_ffe0_0000);
    ExponentIs(-61950, -327680);
    assert Factor(0) == 65536;
    Shifts(0xffff_0000);
    Unclamped(0x1d00_ffff, 0xffff, 208, -61950, -327680, 65536, 23, 3, 0x7_fff8_0000);
  }

  /** Far behind, up to the limit, and a parent time from the future. */
  lemma Stranded()
    ensures Holds(0x1d00_ffff, 1600000000, 4500000, 4501001, 1600390390, 0x1e0f_ffff)
    ensures Holds(0x1d00_ffff, 1600000000, 4500000, 4501001, 1600690690, 0x1e0f_ffff)
    ensures Holds(0x1d00_ffff, 1600000000, 4500000, 4501001, 1603003000, 0x1e0f_ffff)
    ensures Holds(0x1d00_ffff, 1600000000, 4500000, 4500002, 1600007230, 0x1d01_7e4e)
    ensures Holds(0x1e0f_ffff, 1600000000, 4500000, 4500001, 1604956000, 0x1e0f_ffff)
  {
    hide Next, Encode, Exponent, Shl;
    ExponentIs(360360, 1906097);
    assert Factor(5553) == 69508;
    Clamped(0x1d00_ffff, 0xffff, 208, 360360, 1906097, 69508);
    ExponentIs(660660, 3494512);
    assert Factor(21104) == 81923;
    Clamped(0x1d00_ffff, 0xffff, 208, 660660, 3494512, 81923);
    ExponentIs(2972970, 15725307);
    assert Factor(62203) == 126541;
    Clamped(0x1d00_ffff, 0xffff, 208, 2972970, 15725307, 126541);
    ExponentIs(7170, 37925);
    assert Factor(37925) == 97872;
    Shifts(0x1_7e4e_81b0);
    Unclamped(0x1d00_ffff, 0xffff, 208, 7170, 37925, 97872, 24, 0, 0x1_7e4e_81b0);
    ExponentIs(4955970, 26214241);
    assert Factor(65377) == 130853;
    Clamped(0x1e0f_ffff, 0xf_ffff, 216, 4955970, 26214241, 130853);
  }

  /** Other anchors, easy and hard. */
  lemma Anchors()
    ensures Holds(0x1e0f_ffff, 1600000000, 4500000, 4500003, 1600000060, 0x1e0f_f92f)
    ensures Holds(0x1e0f_ffff, 1600000000, 4500000, 4500003, 1600012450, 0x1e0f_ffff)
    ensures Holds(0x1b04_864c, 1600000000, 4500000, 4500003, 1600000060, 0x1b04_845e)
    ensures Holds(0x1b04_864c, 1600000000, 4500000, 4500003, 1600012450, 0x1b09_08b9)
    ensures Holds(0x1c05_a3f4, 1600000000, 4500000, 4500003, 1600000060, 0x1c05_a18d)
    ensures Holds(0x1c05_a3f4, 1600000000, 4500000, 4500003, 1600012450, 0x1c0b_4314)
  {
    hide Next, Encode, Exponent, Shl;
    ExponentIs(-30, -158);
    assert Factor(65378) == 130854;
    Shifts(0x1f_f25e_00da);
    Unclamped(0x1e0f_ffff, 0xf_ffff, 216, -30, -158, 130854, 24, 7, 0xff9_2f00_6d00);
    ExponentIs(12360, 65377);
    assert Factor(65377) == 130853;
    Clamped(0x1e0f_ffff, 0xf_ffff, 216, 12360, 65377, 130853);
    ExponentIs(-30, -158);
    assert Factor(65378) == 130854;
    Shifts(0x9_08bd_a348);
    Unclamped(0x1b04_864c, 0x4_864c, 192, -30, -158, 130854, 21, 7, 0x484_5ed1_a400);
    ExponentIs(12360, 65377);
    assert Factor(65377) == 130853;
    Shifts(0x9_08b9_1cfc);
    Unclamped(0x1b04_864c, 0x4_864c, 192, 12360, 65377, 130853, 22, 0, 0x9_08b9_1cfc);
    ExponentIs(-30, -158);
    assert Factor(65378) == 130854;
    Shifts(0xb_431a_6238);
    Unclamped(0x1c05_a3f4, 0x5_a3f4, 200, -30, -158, 130854, 22, 7, 0x5a1_8d31_1c00);
    ExponentIs(12360, 65377);
    assert Factor(65377) == 130853;
    Shifts(0xb_4314_be44);
    Unclamped(0x1c05_a3f4, 0x5_a3f4, 200, 12360, 65377, 130853, 23, 0, 0xb_4314_be44);
  }

  /** A random walk. */
  lemma Walk()
    ensures Holds(0x1d00_ffff, 1600000000, 4500000, 4500002, 1600000053, 0x1d00_ffe5)
    ensures Holds(0x1d00_ffff, 1600000000, 4500000, 4500012, 1600000556, 0x1d01_02d2)
    ensures Holds(0x1d00_ffff, 1600000000, 4500000, 4500022, 1600001141, 0x1d01_06fe)
    ensures Holds(0x1d00_ffff, 1600000000, 4500000, 4500032, 1600001624, 0x1d01_09b4)
    ensures Holds(0x1d00_ffff, 1600000000, 4500000, 4500042, 1600002041, 0x1d01_0b73)
    ensures Holds(0x1d00_ffff, 1600000000, 4500000, 4500052, 1600002510, 0x1d01_0dfe)
    ensures Holds(0x1d00_ffff, 1600000000, 4500000, 4500062, 1600002823, 0x1d01_0e30)
    ensures Holds(0x1d00_ffff, 1600000000, 4500000, 4500072, 1600003364, 0x1d01_11dc)
    ensures Holds(0x1d00_ffff, 1600000000, 4500000, 4500082, 1600003841, 0x1d01_1495)
    ensures Holds(0x1d00_ffff, 1600000000, 4500000, 4500092, 1600004330, 0x1d01_1786)
    ensures Holds(0x1d00_ffff, 1600000000, 4500000, 4500102, 1600004873, 0x1d01_1b59)
    ensures Holds(0x1d00_ffff, 1600000000, 4500000, 4500112, 1600005166, 0x1d01_1b3c)
  {
    hide Next, Encode, Exponent, Shl;
    ExponentIs(-7, -37);
    assert Factor(65499) == 131021;
    Shifts(0x1_ffcb_0033);
    Unclamped(0x1d00_ffff, 0xffff, 208, -7, -37, 131021, 23, 7, 0xff_e580_1980);
    ExponentIs(196, 1036);
    assert Factor(1036) == 66260;
    Shifts(0x1_02d2_fd2c);
    Unclamped(0x1d00_ffff, 0xffff, 208, 196, 1036, 66260, 24, 0, 0x1_02d2_fd2c);
    ExponentIs(481, 2544);
    assert Factor(2544) == 67328;
    Shifts(0x1_06fe_f900);
    Unclamped(0x1d00_ffff, 0xffff, 208, 481, 2544, 67328, 24, 0, 0x1_06fe_f900);
    ExponentIs(664, 3512);
    assert Factor(3512) == 68022;
    Shifts(0x1_09b4_f64a);
    Unclamped(0x1d00_ffff, 0xffff, 208, 664, 3512, 68022, 24, 0, 0x1_09b4_f64a);
    ExponentIs(781, 4131);
    assert Factor(4131) == 68469;
    Shifts(0x1_0b73_f48b);
    Unclamped(0x1d00_ffff, 0xffff, 208, 781, 4131, 68469, 24, 0, 0x1_0b73_f48b);
    ExponentIs(950, 5024);
    assert Factor(5024) == 69120;
    Shifts(0x1_0dfe_f200);
    Unclamped(0x1d00_ffff, 0xffff, 208, 950, 5024, 69120, 24, 0, 0x1_0dfe_f200);
    ExponentIs(963, 5093);
    assert Factor(5093) == 69170;
    Shifts(0x1_0e30_f1ce);
    Unclamped(0x1d00_ffff, 0xffff, 208, 963, 5093, 69170, 24, 0, 0x1_0e30_f1ce);
    ExponentIs(1204, 6368);
    assert Factor(6368) == 70110;
    Shifts(0x1_11dc_ee22);
    Unclamped(0x1d00_ffff, 0xffff, 208, 1204, 6368, 70110, 24, 0, 0x1_11dc_ee22);
    ExponentIs(1381, 7304);
    assert Factor(7304) == 70807;
    Shifts(0x1_1495_eb69);
    Unclamped(0x1d00_ffff, 0xffff, 208, 1381, 7304, 70807, 24, 0, 0x1_1495_eb69);
    ExponentIs(1570, 8304);
    assert Factor(8304) == 71560;
    Shifts(0x1_1786_e878);
    Unclamped(0x1d00_ffff, 0xffff, 208, 1570, 8304, 71560, 24, 0, 0x1_1786_e878);
    ExponentIs(1813, 9589);
    assert Factor(9589) == 72539;
    Shifts(0x1_1b59_e4a5);
    Unclamped(0x1d00_ffff, 0xffff, 208, 1813, 9589, 72539, 24, 0, 0x1_1b59_e4a5);
    ExponentIs(1806, 9552);
    assert Factor(9552) == 72510;
    Shifts(0x1_1b3c_e4c2);
    Unclamped(0x1d00_ffff, 0xffff, 208, 1806, 9552, 72510, 24, 0, 0x1_1b3c_e4c2);
  }

  /** So hard an anchor, so far ahead, that nothing is left of the target: the least one there is. */
  lemma Least()
    ensures Holds(0x300_0001, 1600000000, 4500000, 4500001, 1562830000, 0x101_0000)
  {
    hide Next, Encode, Exponent, Shl, Shr, Factor;
    ExponentIs(-37170030, -196608158);
    NothingLeft(-37170030, -196608158);
  }

  lemma NothingLeft(late: int, e: int)
    requires Exponent(late) == e && e / 65536 <= -32
    ensures Next(0x300_0001, late) == 0x101_0000
  {
    hide Shl, Shr, Factor, Exponent, Poly;
    var bits := 0x300_0001;
    assert Decode(bits) == 1 by {
      assert Word(bits) == 1 && Size(bits) == 3;
      FewBits(1);
    }
    var factor := Factor(e % 65536);
    FactorFacts(e % 65536);
    ShiftedOut(Product(1, factor), 16 - e / 65536);
    assert Raw(1, e) == 0;
    EncodeSmall(1);
    Shifts(1);
    Shifts(256);
  }

  lemma {:induction false} ShiftedOut(v: nat, n: nat)
    requires v <= 131071 && n >= 48
    ensures Shr(v, n) == 0
  {
    hide Shr;
    FewBits(v);
    FewBits(Shr(v, 16));
    ShrAdd(v, 16, 8);
    ShrAdd(v, 24, n - 24);
    NoneLeft(n - 24);
  }

  lemma {:induction false} NoneLeft(n: nat)
    ensures Shr(0, n) == 0
  {
    if n > 0 {
      NoneLeft(n - 1);
    }
  }

  /** The easiest target there is, as published. */
  lemma LimitPublished()
    ensures Encode(PowLimit()) == 0x1e0f_ffff
  {
    hide Shl, Shr, Encode, Pow2;
    var v := PowLimit();
    LimitFits();
    UnitsBelow(v, 27);
    TopOfLimit();
    Leading(v);
    if Units(v) < 27 {
      ShrAdd(v, 8 * Units(v), 8 * (26 - Units(v)));
    }
    EncodeLarge(v);
  }

  lemma TopOfLimit()
    ensures PowLimit() >= 0x80_0000 && Shr(PowLimit(), 216) == 0xf_ffff && Shr(PowLimit(), 208) >= 0x80_0000
  {
    hide Shl, Shr, Pow2;
    FewBits(1);
    FourBits(0x1_0000);
    ShlAdd(1, 16, 4);
    ShlAdd(1, 20, 216);
    OneShifted(236);
    ShlSum(0xf_ffff, 1, 216);
    ShlMono(0, 1, 216);
    ShlSum(0, 0, 216);
    ShiftsMeet(0xf_ffff, PowLimit(), 216);
    ShiftsMeet(0x10_0000, PowLimit(), 216);
    ShrAdd(PowLimit(), 208, 8);
    FewBits(Shr(PowLimit(), 208));
  }
}

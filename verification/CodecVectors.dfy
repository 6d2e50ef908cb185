/** Known answers for the stored form of coins: the examples that the source gives, octet by octet. */
module CodecVectors {
  import opened Options
  import opened Coins
  import opened Octets
  import Amounts
  import VarInt
  import ScriptCodec
  import opened CoinsCodec

  lemma AmountPairs()
    ensures Amounts.Compress(0) == 0 && Amounts.Compress(1) == 1 && Amounts.Compress(1_000_000) == 7
    ensures Amounts.Compress(100_000_000) == 9 && Amounts.Compress(5_000_000_000) == 50
    ensures Amounts.Compress(2_100_000_000_000_000) == 21_000_000
    ensures Amounts.Compress(60_000_000_000) == 600
    ensures Amounts.Compress(234_925_952) == 2_114_333_561 && Amounts.Compress(110_397) == 993_571
  {
  }

  lemma Numbers()
    ensures VarInt.Written(0) == [0x00] && VarInt.Written(1) == [0x01] && VarInt.Written(127) == [0x7F]
    ensures VarInt.Written(128) == [0x80, 0x00] && VarInt.Written(255) == [0x80, 0x7F]
    ensures VarInt.Written(256) == [0x81, 0x00] && VarInt.Written(16383) == [0xFE, 0x7F]
    ensures VarInt.Written(16384) == [0xFF, 0x00]
    ensures VarInt.Written(0x1_0000_0000) == [0x8E, 0xFE, 0xFE, 0xFF, 0x00]
  {
    LargestNumber();
  }

  lemma LargestNumber()
    ensures VarInt.Written(0x1_0000_0000) == [0x8E, 0xFE, 0xFE, 0xFF, 0x00]
  {
    assert VarInt.Digits(14, true) == [0x8E];
    assert VarInt.Digits(2046, true) == [0x8E, 0xFE];
    assert VarInt.Digits(262142, true) == [0x8E, 0xFE, 0xFE];
    assert VarInt.Digits(33554431, true) == [0x8E, 0xFE, 0xFE, 0xFF];
  }

  /** Two of the octet strings that are given for numbers stand for others. */
  lemma OtherNumbers()
    ensures VarInt.Written(16511) == [0xFF, 0x7F] && VarInt.Read([0x80, 0xFF, 0x7F]) == Some((32895, []))
    ensures VarInt.Written(65535) == [0x82, 0xFE, 0x7F] && VarInt.Read([0x82, 0xFD, 0x7F]) == Some((65407, []))
  {
    assert [0x80, 0xFF, 0x7F][1..] == [0xFF, 0x7F] && [0xFF, 0x7F][1..] == [0x7F] && [0x7F][1..] == [];
    assert [0x82, 0xFD, 0x7F][1..] == [0xFD, 0x7F] && [0xFD, 0x7F][1..] == [0x7F];
    assert VarInt.ReadOn([0x7F], 510) == Some((65407, []));
    assert VarInt.ReadOn([0xFD, 0x7F], 3) == Some((65407, []));
  }

  /** The script that pays to a key with this hash. */
  function ToKeyID(hash: Octets): Octets {
    [0x76, 0xa9, 20] + hash + [0x88, 0xac]
  }

  lemma ShortToKeyID(curve: ScriptCodec.Curve, hash: Octets)
    requires |hash| == 20
    ensures ScriptCodec.Write(curve, ToKeyID(hash)) == [0] + hash
  {
    assert ToKeyID(hash)[3..23] == hash;
  }

  const KEY1: Octets := [0x81, 0x61, 0x15, 0x94, 0x4e, 0x07, 0x7f, 0xe7, 0xc8, 0x03,
                         0xcf, 0xa5, 0x7f, 0x29, 0xb3, 0x6b, 0xf8, 0x7c, 0x1d, 0x35]
  const KEY2: Octets := [0x61, 0xb0, 0x1c, 0xaa, 0xb5, 0x0f, 0x1b, 0x8e, 0x9c, 0x50,
                         0xa5, 0x05, 0x7e, 0xb4, 0x3c, 0x2d, 0x95, 0x63, 0xa4, 0xee]
  const KEY3: Octets := [0x8c, 0x98, 0x8f, 0x1a, 0x4a, 0x4d, 0xe2, 0x16, 0x1e, 0x0f,
                         0x50, 0xaa, 0xc7, 0xf1, 0x7e, 0x7f, 0x95, 0x55, 0xca, 0xa4]

  // ---- a record whose second output is unspent ----

  lemma OneOutput(curve: ScriptCodec.Curve)
    ensures Serialized(curve, Coin(false, [NULL_OUT, TxOut(60_000_000_000, ToKeyID(KEY1))], 203998, 1))
         == [0x01, 0x04, 0x83, 0x58, 0x00] + KEY1 + [0x8b, 0xb8, 0x5e]
  {
    hide ToKeyID, OutsOctets, MaskOctets, VarInt.Written, HeaderCode, OutOctets;
    OneHeader(TxOut(60_000_000_000, ToKeyID(KEY1)));
    OneOut(curve, TxOut(60_000_000_000, ToKeyID(KEY1)));
    Amount600(curve, KEY1);
    OneNumbers();
    hide KEY1;
  }

  lemma OneHeader(out: TxOut)
    requires !out.IsNull()
    ensures var c := Coin(false, [NULL_OUT, out], 203998, 1);
            MaskSize(c.vout) == 0 && MaskOctets(c.vout, 0, 0) == [] && HeaderCode(c) == 4
  {
  }

  lemma {:induction false} OneOut(curve: ScriptCodec.Curve, out: TxOut)
    requires !out.IsNull()
    ensures OutsOctets(curve, [NULL_OUT, out], 0) == OutOctets(curve, out)
  {
    hide OutOctets;
    var vout := [NULL_OUT, out];
    assert OutsOctets(curve, vout, 2) == [];
    assert OutsOctets(curve, vout, 1) == OutOctets(curve, vout[1]) + [];
  }

  lemma Amount600(curve: ScriptCodec.Curve, key: Octets)
    requires |key| == 20
    ensures OutOctets(curve, TxOut(60_000_000_000, ToKeyID(key))) == [0x83, 0x58, 0x00] + key
  {
    hide ToKeyID, ScriptCodec.Write, Amounts.Compress, VarInt.Written;
    ShortToKeyID(curve, key);
    AmountPairs();
    OneNumbers();
    assert [0x83, 0x58] + ([0] + key) == [0x83, 0x58, 0x00] + key;
  }

  lemma OneNumbers()
    ensures VarInt.Written(1) == [0x01] && VarInt.Written(4) == [0x04] && VarInt.Written(600) == [0x83, 0x58]
    ensures VarInt.Written(203998) == [0x8b, 0xb8, 0x5e]
  {
  }

  // ---- a coinbase whose fifth and seventeenth outputs are unspent ----

  function Seventeen(a: TxOut, b: TxOut): seq<TxOut> {
    [NULL_OUT, NULL_OUT, NULL_OUT, NULL_OUT, a, NULL_OUT, NULL_OUT, NULL_OUT, NULL_OUT,
     NULL_OUT, NULL_OUT, NULL_OUT, NULL_OUT, NULL_OUT, NULL_OUT, NULL_OUT, b]
  }

  lemma TwoOutputs(curve: ScriptCodec.Curve)
    ensures Serialized(curve, Coin(true, Seventeen(TxOut(234_925_952, ToKeyID(KEY2)), TxOut(110_397, ToKeyID(KEY3))),
                                   120891, 1))
         == [0x01, 0x09, 0x04, 0x40, 0x86, 0xef, 0x97, 0xd5, 0x79, 0x00] + KEY2
            + [0xbb, 0xd1, 0x23, 0x00] + KEY3 + [0x86, 0xaf, 0x3b]
  {
    hide ToKeyID, OutsOctets, MaskOctets, VarInt.Written, HeaderCode, OutOctets, Seventeen, MaskSize;
    var a, b := TxOut(234_925_952, ToKeyID(KEY2)), TxOut(110_397, ToKeyID(KEY3));
    TwoHeader(a, b);
    TwoOuts(curve, a, b);
    TwoAmounts(curve, KEY2, KEY3);
    TwoNumbers();
    TogetherAre(KEY2, KEY3);
    hide KEY2, KEY3;
  }

  lemma TogetherAre(key: Octets, other: Octets)
    ensures [0x01] + ([0x09] + ([0x04, 0x40]
            + (([0x86, 0xef, 0x97, 0xd5, 0x79, 0x00] + key + ([0xbb, 0xd1, 0x23, 0x00] + other)) + [0x86, 0xaf, 0x3b])))
         == [0x01, 0x09, 0x04, 0x40, 0x86, 0xef, 0x97, 0xd5, 0x79, 0x00] + key
            + [0xbb, 0xd1, 0x23, 0x00] + other + [0x86, 0xaf, 0x3b]
  {
    var tail: Octets := [0x86, 0xaf, 0x3b];
    assert [0x01] + ([0x09] + ([0x04, 0x40] + [0x86, 0xef, 0x97, 0xd5, 0x79, 0x00]))
        == [0x01, 0x09, 0x04, 0x40, 0x86, 0xef, 0x97, 0xd5, 0x79, 0x00];
  }

  lemma {:induction false} OnlyBit(vout: seq<TxOut>, b: nat, k: nat, n: nat)
    requires n <= 8 && k < 8 && forall j :: 0 <= j < 8 ==> (InMask(vout, b, j) <==> j == k)
    ensures MaskByte(vout, b, n) == if n > k then (1 as bv8) << k else 0
  {
    if n > 0 {
      OnlyBit(vout, b, k, n - 1);
    }
  }

  lemma {:induction false} NullRun(curve: ScriptCodec.Curve, vout: seq<TxOut>, i: nat, j: nat)
    requires i <= j <= |vout| && forall p :: i <= p < j ==> vout[p].IsNull()
    ensures OutsOctets(curve, vout, i) == OutsOctets(curve, vout, j)
    decreases j - i
  {
    if i < j {
      NullRun(curve, vout, i + 1, j);
    }
  }

  lemma TwoMask(a: TxOut, b: TxOut)
    requires !a.IsNull() && !b.IsNull()
    ensures MaskByte(Seventeen(a, b), 0, 8) == 0x04 && MaskByte(Seventeen(a, b), 1, 8) == 0x40
  {
    hide MaskByte;
    OnlyBit(Seventeen(a, b), 0, 2, 8);
    OnlyBit(Seventeen(a, b), 1, 6, 8);
  }

  lemma TwoHeader(a: TxOut, b: TxOut)
    requires !a.IsNull() && !b.IsNull()
    ensures var c := Coin(true, Seventeen(a, b), 120891, 1);
            MaskSize(c.vout) == 2 && MaskOctets(c.vout, 0, 2) == [0x04, 0x40] && HeaderCode(c) == 9
  {
    hide MaskByte;
    TwoMask(a, b);
    var vout := Seventeen(a, b);
    assert MaskOctets(vout, 2, 2) == [] && MaskOctets(vout, 1, 2) == [0x40];
    assert CountUsed(vout, 2, 2) == 0 && CountUsed(vout, 1, 2) == 1;
  }

  lemma {:induction false} TwoOuts(curve: ScriptCodec.Curve, a: TxOut, b: TxOut)
    requires !a.IsNull() && !b.IsNull()
    ensures OutsOctets(curve, Seventeen(a, b), 0) == OutOctets(curve, a) + OutOctets(curve, b)
  {
    hide OutOctets;
    var vout := Seventeen(a, b);
    assert OutsOctets(curve, vout, 17) == [];
    assert OutsOctets(curve, vout, 16) == OutOctets(curve, b) + [];
    NullRun(curve, vout, 5, 16);
    assert OutsOctets(curve, vout, 4) == OutOctets(curve, a) + OutsOctets(curve, vout, 5);
    NullRun(curve, vout, 0, 4);
  }

  lemma TwoAmounts(curve: ScriptCodec.Curve, key: Octets, other: Octets)
    requires |key| == 20 && |other| == 20
    ensures OutOctets(curve, TxOut(234_925_952, ToKeyID(key))) == [0x86, 0xef, 0x97, 0xd5, 0x79, 0x00] + key
    ensures OutOctets(curve, TxOut(110_397, ToKeyID(other))) == [0xbb, 0xd1, 0x23, 0x00] + other
  {
    hide ToKeyID, ScriptCodec.Write, Amounts.Compress, VarInt.Written;
    ShortToKeyID(curve, key);
    ShortToKeyID(curve, other);
    AmountPairs();
    TwoNumbers();
    assert [0x86, 0xef, 0x97, 0xd5, 0x79] + ([0] + key) == [0x86, 0xef, 0x97, 0xd5, 0x79, 0x00] + key;
    assert [0xbb, 0xd1, 0x23] + ([0] + other) == [0xbb, 0xd1, 0x23, 0x00] + other;
  }

  lemma TwoNumbers()
    ensures VarInt.Written(1) == [0x01] && VarInt.Written(9) == [0x09]
    ensures VarInt.Written(2_114_333_561) == [0x86, 0xef, 0x97, 0xd5, 0x79]
    ensures VarInt.Written(993_571) == [0xbb, 0xd1, 0x23] && VarInt.Written(120891) == [0x86, 0xaf, 0x3b]
  {
    hide VarInt.Digits;
    LongNumber();
    ShorterNumbers();
    assert VarInt.Written(1) == [0x01] && VarInt.Written(9) == [0x09] by { Small(); }
  }

  lemma Small()
    ensures VarInt.Written(1) == [0x01] && VarInt.Written(9) == [0x09]
  {
  }

  lemma LongNumber()
    ensures VarInt.Written(2_114_333_561) == [0x86, 0xef, 0x97, 0xd5, 0x79]
  {
    assert VarInt.Digits(6, true) == [0x86];
    assert VarInt.Digits(1007, true) == [0x86, 0xef];
    assert VarInt.Digits(129047, true) == [0x86, 0xef, 0x97];
    assert VarInt.Digits(16518229, true) == [0x86, 0xef, 0x97, 0xd5];
  }

  lemma ShorterNumbers()
    ensures VarInt.Written(993_571) == [0xbb, 0xd1, 0x23] && VarInt.Written(120891) == [0x86, 0xaf, 0x3b]
  {
  }

  // ---- undo records ----

  /** Of an output that was the last of a coinbase of height 203998 and version 1, and of one that was not the last of
      its transaction. */
  lemma UndoRecords(curve: ScriptCodec.Curve)
    ensures UndoOctets(curve, TxInUndo(TxOut(60_000_000_000, ToKeyID(KEY1)), true, 203998, 1))
         == [0x97, 0xf2, 0x3d, 0x01, 0x83, 0x58, 0x00] + KEY1
    ensures UndoOctets(curve, TxInUndo(TxOut(60_000_000_000, ToKeyID(KEY1)), false, 0, 0))
         == [0x00, 0x83, 0x58, 0x00] + KEY1
  {
    hide ToKeyID, VarInt.Written, OutOctets;
    Amount600(curve, KEY1);
    OneNumbers();
    UndoNumbers();
    hide KEY1;
  }

  lemma UndoNumbers()
    ensures VarInt.Written(407997) == [0x97, 0xf2, 0x3d] && VarInt.Written(0) == [0x00]
  {
  }
}

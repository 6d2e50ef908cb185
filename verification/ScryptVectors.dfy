/** Known answers: the vectors of RFC 7914 for the Salsa20/8 core, section 8, and for scryptBlockMix, section 9, octet
    by octet. */
module ScryptVectors {
  import opened Scrypt

  /** Worked out by hand from the statements of the program. */
  lemma OneQuarterRound()
    ensures QuarterRound(1, 0, 0, 0) == Quad(0x08008145, 0x00000080, 0x00010200, 0x20500000)
  {
  }

  // ---- matrices ----

  function AddWords(a: Words, b: Words): Words {
    Words(Add(a.x00, b.x00), Add(a.x01, b.x01), Add(a.x02, b.x02), Add(a.x03, b.x03),
          Add(a.x04, b.x04), Add(a.x05, b.x05), Add(a.x06, b.x06), Add(a.x07, b.x07),
          Add(a.x08, b.x08), Add(a.x09, b.x09), Add(a.x10, b.x10), Add(a.x11, b.x11),
          Add(a.x12, b.x12), Add(a.x13, b.x13), Add(a.x14, b.x14), Add(a.x15, b.x15))
  }

  function XorWords(a: Words, b: Words): Words {
    Words(Xor(a.x00, b.x00), Xor(a.x01, b.x01), Xor(a.x02, b.x02), Xor(a.x03, b.x03),
          Xor(a.x04, b.x04), Xor(a.x05, b.x05), Xor(a.x06, b.x06), Xor(a.x07, b.x07),
          Xor(a.x08, b.x08), Xor(a.x09, b.x09), Xor(a.x10, b.x10), Xor(a.x11, b.x11),
          Xor(a.x12, b.x12), Xor(a.x13, b.x13), Xor(a.x14, b.x14), Xor(a.x15, b.x15))
  }

  lemma Whole(s: seq<Word>)
    requires |s| == 16
    ensures FromWords(ToWords(s)) == s
  {
  }

  lemma Back(x: Words)
    ensures ToWords(FromWords(x)) == x
  {
  }

  lemma AddEntrywise(a: Words, b: Words)
    ensures AddAll(FromWords(a), FromWords(b)) == FromWords(AddWords(a, b))
  {
    hide Add;
    assert ToWords(AddAll(FromWords(a), FromWords(b))) == AddWords(a, b);
    hide AddAll, FromWords, ToWords, AddWords;
    Whole(AddAll(FromWords(a), FromWords(b)));
  }

  lemma XorEntrywise(a: Words, b: Words)
    ensures XorAll(FromWords(a), FromWords(b)) == FromWords(XorWords(a, b))
  {
    hide Xor;
    assert ToWords(XorAll(FromWords(a), FromWords(b))) == XorWords(a, b);
    hide XorAll, FromWords, ToWords, XorWords;
    Whole(XorAll(FromWords(a), FromWords(b)));
  }

  lemma {:induction false} SalsaIs(a: Words)
    ensures Salsa(FromWords(a)) == FromWords(AddWords(a, DoubleRounds(a, 4)))
  {
    hide DoubleRounds, AddWords, AddAll, FromWords, ToWords;
    Back(a);
    AddEntrywise(a, DoubleRounds(a, 4));
  }

  // ---- the vector of section 8, after each column round and each row round ----

  const A0 := Words(0x219a877e, 0x86c93e4f, 0xe640a97c, 0x268f7141,
                    0x5b55eeba, 0xb5c1618c, 0x1146f80d, 0x1d3bcd6d,
                    0x19f324ee, 0x853d9bdf, 0x4b1e1214, 0x32aac55a,
                    0x291d0276, 0x2948c709, 0x8dc6ebed, 0x5ec2b8b8)
  const A1 := Words(0x08857f83, 0xbc4dffa4, 0x225a0768, 0x90307809,
                    0x0091149f, 0xc3e54d59, 0xd113843e, 0xfb5a4eb0,
                    0x4ecb1eaa, 0xc0727641, 0x6585dfa2, 0x6a7df42b,
                    0xaf742b9d, 0x4ee75de5, 0xbf43fb43, 0x55af2fd9)
  const A2 := Words(0x482665b1, 0xe6b639e8, 0x5528d0b6, 0x7163bf72,
                    0x93580e01, 0x0c50b5fd, 0xea23785c, 0xead125ec,
                    0xf701a95d, 0xd590a7ea, 0x209aedeb, 0x965705b9,
                    0xd6e1a597, 0x6f4dbdbc, 0x53299386, 0x10a42604)
  const A3 := Words(0xb4cf7248, 0xb8e79720, 0x3e130cef, 0x0cf661a1,
                    0x175daa0e, 0xde3bd4f1, 0x5dbd3119, 0xdfde6fd7,
                    0xff1ed7e2, 0x56e75513, 0xd8b882ab, 0x0c781823,
                    0x46dfa758, 0x1f5b9d7a, 0x0c1ab003, 0x0f4f975e)
  const A4 := Words(0xe9e67835, 0x5a0e63c0, 0x85bf1cf2, 0xbce03a58,
                    0x95e02c9d, 0x10a33116, 0x91024ee3, 0xa399c709,
                    0x678d68da, 0x70e69077, 0x3dffe364, 0xc393c734,
                    0xf3fc17d5, 0x8805fb7c, 0x4e709f83, 0x64b0ce84)
  const A5 := Words(0xfbef1227, 0x12c789d1, 0x56808ce8, 0x9eaae64c,
                    0x64a829f3, 0x43dbdd85, 0xd82bca5e, 0x14f0670f,
                    0x7ac93847, 0x282cfb42, 0x60e759d5, 0xaa38b147,
                    0xdfbb4c3b, 0x285d4b0d, 0xcf69bc64, 0x05ea3220)
  const A6 := Words(0x28f2a180, 0x5e3bb01c, 0x03040a5c, 0x69e5ea6b,
                    0x997f9f3c, 0x1c650ad9, 0x9a28760a, 0x1c5778b3,
                    0x89e18946, 0x5055ce7c, 0x3fec3108, 0x20123a83,
                    0x764c0e51, 0x44dda9f5, 0xf8616b01, 0x5632c6dc)
  const A7 := Words(0xb0e98b83, 0x346a63e9, 0x3d22e238, 0x4b6545d0,
                    0x062877f3, 0x1abe5aed, 0x22bcf3e0, 0x2c4e21f0,
                    0xbfd36f18, 0x0008b4c1, 0x678d4e77, 0x4cea3475,
                    0x0aad76ee, 0x9fa29dcd, 0xf232e26c, 0x0fa7223d)
  const A8 := Words(0x7aea9826, 0x1302ca17, 0xe589d7bf, 0xdf5f9ac1,
                    0x25cb5c4a, 0xc7729c16, 0x51d583f0, 0x0bf39b29,
                    0x4e3e14c6, 0x37a92e04, 0x6ca759ea, 0x87eba846,
                    0xe7af226e, 0x332bca23, 0xafa0c137, 0x22cca90f)
  const A_OUT := Words(0x9c851fa4, 0x99cc0866, 0xcbca813b, 0x05ef0c02,
                       0x81214b04, 0x7d33fda2, 0x631c7bfd, 0x292f6896,
                       0x683139b4, 0xbce6c9e3, 0xb7c56bfe, 0xba966da0,
                       0x10cc24e4, 0x5c74912c, 0x3d67ad24, 0x818f61c7)

  lemma ARound1()
    ensures ColumnRound(A0) == A1
  {
  }

  lemma ARound2()
    ensures RowRound(A1) == A2
  {
  }

  lemma ARound3()
    ensures ColumnRound(A2) == A3
  {
  }

  lemma ARound4()
    ensures RowRound(A3) == A4
  {
  }

  lemma ARound5()
    ensures ColumnRound(A4) == A5
  {
  }

  lemma ARound6()
    ensures RowRound(A5) == A6
  {
  }

  lemma ARound7()
    ensures ColumnRound(A6) == A7
  {
  }

  lemma ARound8()
    ensures RowRound(A7) == A8
  {
  }

  lemma ARounds()
    ensures DoubleRounds(A0, 4) == A8
  {
    hide ColumnRound, RowRound;
    ARound1();
    ARound2();
    ARound3();
    ARound4();
    ARound5();
    ARound6();
    ARound7();
    ARound8();
    assert DoubleRounds(A0, 0) == A0;
    assert DoubleRounds(A0, 1) == A2;
    assert DoubleRounds(A0, 2) == A4;
    assert DoubleRounds(A0, 3) == A6;
  }

  lemma AAddsUp()
    ensures AddWords(A0, A8) == A_OUT
  {
  }

  lemma ACore()
    ensures Salsa(FromWords(A0)) == FromWords(A_OUT)
  {
    hide DoubleRounds, AddWords, FromWords, Salsa;
    SalsaIs(A0);
    ARounds();
    AAddsUp();
  }

  // ---- the second core of the vector of section 9, after each column round and each row round ----

  const B0 := Words(0xd814562d, 0xbb771b14, 0x867fa457, 0xfe9f6faa,
                    0x0162d3c9, 0xc655bb95, 0xdca98772, 0x997baad6,
                    0x394debd3, 0x4233832d, 0xbc0c4226, 0xa1c137f0,
                    0xbdd0699b, 0x8648c346, 0x8100a353, 0x08f1ce2d)
  const B1 := Words(0xd1add72d, 0xa88714ed, 0x671d2f78, 0xa71c617f,
                    0xf33d3783, 0xb457b44e, 0xef7b6f12, 0x8524f3b6,
                    0x9a568a45, 0xa458d7ed, 0xc6251844, 0x8b679278,
                    0xc5e97829, 0xdb6fc793, 0xdbe46f1f, 0x10498c1f)
  const B2 := Words(0x7c1ebc98, 0xcd9b42d1, 0xf52ed246, 0xe5be9926,
                    0x9d459a4e, 0xad1c2ec4, 0x250e87c1, 0x495cec04,
                    0x1310a8b2, 0xa2372efb, 0x9893cd5b, 0xb59f8acd,
                    0xd314e75f, 0x67893a55, 0x1fd2e84c, 0x9acf916f)
  const B3 := Words(0x2c76a3cc, 0x2ff085f6, 0xed480889, 0xd230870e,
                    0x049461e9, 0x792590ba, 0x28ddf049, 0x496c16de,
                    0x752dabb3, 0xf98fe446, 0x7bdb95cc, 0x262209be,
                    0x92a76867, 0x3faf2f18, 0xcef86612, 0x18be2f57)
  const B4 := Words(0xafb7c3f9, 0x7c65e889, 0x5450a3d8, 0x03bcbd18,
                    0xc62b1bcc, 0x46671c68, 0xf424a1f7, 0xdd097404,
                    0x80010bad, 0xf809c632, 0x3ca675e7, 0x939f0084,
                    0x49eddc94, 0x67b8f9dd, 0x14365026, 0x30b3c0ea)
  const B5 := Words(0xdfe9d5d3, 0x35f90c9a, 0x9c3ae884, 0x2adc0a7a,
                    0x14fb5d30, 0x2cddfc76, 0xe0dce048, 0xc29fbcb3,
                    0xe6435824, 0x9e8bbed3, 0x1f9781b8, 0xeb7abd2b,
                    0x9f4743f3, 0x820e8e14, 0x71bdbf3e, 0xd7c97883)
  const B6 := Words(0xaad84ddb, 0x57092a1f, 0x79c50ce9, 0xec3d1063,
                    0x127e7056, 0xe880388f, 0x0c703368, 0x5ec000c1,
                    0x02b60010, 0x81ab2161, 0x9a51903c, 0xfadaf8f4,
                    0x5cdca357, 0xce393a7d, 0xca073a5c, 0x04af1982)
  const B7 := Words(0xf9dd8462, 0x65dda20f, 0x09359a63, 0x29342b1c,
                    0xc806e955, 0xe055bd9c, 0x9c3e65eb, 0x98493c9a,
                    0xbcd860f5, 0x451a767e, 0x9b6b05ec, 0x562c20db,
                    0xb595f3cc, 0xfb672026, 0xaae6e80f, 0x7178a057)
  const B8 := Words(0x9db596f3, 0xed0a1d1e, 0xc6769bae, 0x3e2dbd6c,
                    0xfd193358, 0x1c09d1ca, 0xb26d1d3f, 0x1dfc8bbf,
                    0x46ef4faa, 0x69b0dd0e, 0x2989c76c, 0x149215ab,
                    0x9a51c0c2, 0x6fa51231, 0x70b88931, 0x1cf32121)
  const B_OUT := Words(0x75c9ed20, 0xa8813832, 0x4cf64005, 0x3ccd2d16,
                       0xfe7c0721, 0xe25f8d5f, 0x8f16a4b1, 0xb7783695,
                       0x803d3b7d, 0xabe4603b, 0xe5960992, 0xb6534d9b,
                       0x58222a5d, 0xf5edd577, 0xf1b92c84, 0x25e4ef4e)

  lemma BRound1()
    ensures ColumnRound(B0) == B1
  {
  }

  lemma BRound2()
    ensures RowRound(B1) == B2
  {
  }

  lemma BRound3()
    ensures ColumnRound(B2) == B3
  {
  }

  lemma BRound4()
    ensures RowRound(B3) == B4
  {
  }

  lemma BRound5()
    ensures ColumnRound(B4) == B5
  {
  }

  lemma BRound6()
    ensures RowRound(B5) == B6
  {
  }

  lemma BRound7()
    ensures ColumnRound(B6) == B7
  {
  }

  lemma BRound8()
    ensures RowRound(B7) == B8
  {
  }

  lemma BRounds()
    ensures DoubleRounds(B0, 4) == B8
  {
    hide ColumnRound, RowRound;
    BRound1();
    BRound2();
    BRound3();
    BRound4();
    BRound5();
    BRound6();
    BRound7();
    BRound8();
    assert DoubleRounds(B0, 0) == B0;
    assert DoubleRounds(B0, 1) == B2;
    assert DoubleRounds(B0, 2) == B4;
    assert DoubleRounds(B0, 3) == B6;
  }

  lemma BAddsUp()
    ensures AddWords(B0, B8) == B_OUT
  {
  }

  lemma BCore()
    ensures Salsa(FromWords(B0)) == FromWords(B_OUT)
  {
    hide DoubleRounds, AddWords, FromWords, Salsa;
    SalsaIs(B0);
    BRounds();
    BAddsUp();
  }

  // ---- octets ----

  /** B[0] and B[1], and what they are mixed to, by rows of sixteen octets. */
  const IN0: seq<Octet> := [0xf7, 0xce, 0x0b, 0x65, 0x3d, 0x2d, 0x72, 0xa4,
                            0x10, 0x8c, 0xf5, 0xab, 0xe9, 0x12, 0xff, 0xdd]
  const IN1: seq<Octet> := [0x77, 0x76, 0x16, 0xdb, 0xbb, 0x27, 0xa7, 0x0e,
                            0x82, 0x04, 0xf3, 0xae, 0x2d, 0x0f, 0x6f, 0xad]
  const IN2: seq<Octet> := [0x89, 0xf6, 0x8f, 0x48, 0x11, 0xd1, 0xe8, 0x7b,
                            0xcc, 0x3b, 0xd7, 0x40, 0x0a, 0x9f, 0xfd, 0x29]
  const IN3: seq<Octet> := [0x09, 0x4f, 0x01, 0x84, 0x63, 0x95, 0x74, 0xf3,
                            0x9a, 0xe5, 0xa1, 0x31, 0x52, 0x17, 0xbc, 0xd7]
  const IN4: seq<Octet> := [0x89, 0x49, 0x91, 0x44, 0x72, 0x13, 0xbb, 0x22,
                            0x6c, 0x25, 0xb5, 0x4d, 0xa8, 0x63, 0x70, 0xfb]
  const IN5: seq<Octet> := [0xcd, 0x98, 0x43, 0x80, 0x37, 0x46, 0x66, 0xbb,
                            0x8f, 0xfc, 0xb5, 0xbf, 0x40, 0xc2, 0x54, 0xb0]
  const IN6: seq<Octet> := [0x67, 0xd2, 0x7c, 0x51, 0xce, 0x4a, 0xd5, 0xfe,
                            0xd8, 0x29, 0xc9, 0x0b, 0x50, 0x5a, 0x57, 0x1b]
  const IN7: seq<Octet> := [0x7f, 0x4d, 0x1c, 0xad, 0x6a, 0x52, 0x3c, 0xda,
                            0x77, 0x0e, 0x67, 0xbc, 0xea, 0xaf, 0x7e, 0x89]

  const OUT0: seq<Octet> := [0xa4, 0x1f, 0x85, 0x9c, 0x66, 0x08, 0xcc, 0x99,
                             0x3b, 0x81, 0xca, 0xcb, 0x02, 0x0c, 0xef, 0x05]
  const OUT1: seq<Octet> := [0x04, 0x4b, 0x21, 0x81, 0xa2, 0xfd, 0x33, 0x7d,
                             0xfd, 0x7b, 0x1c, 0x63, 0x96, 0x68, 0x2f, 0x29]
  const OUT2: seq<Octet> := [0xb4, 0x39, 0x31, 0x68, 0xe3, 0xc9, 0xe6, 0xbc,
                             0xfe, 0x6b, 0xc5, 0xb7, 0xa0, 0x6d, 0x96, 0xba]
  const OUT3: seq<Octet> := [0xe4, 0x24, 0xcc, 0x10, 0x2c, 0x91, 0x74, 0x5c,
                             0x24, 0xad, 0x67, 0x3d, 0xc7, 0x61, 0x8f, 0x81]
  const OUT4: seq<Octet> := [0x20, 0xed, 0xc9, 0x75, 0x32, 0x38, 0x81, 0xa8,
                             0x05, 0x40, 0xf6, 0x4c, 0x16, 0x2d, 0xcd, 0x3c]
  const OUT5: seq<Octet> := [0x21, 0x07, 0x7c, 0xfe, 0x5f, 0x8d, 0x5f, 0xe2,
                             0xb1, 0xa4, 0x16, 0x8f, 0x95, 0x36, 0x78, 0xb7]
  const OUT6: seq<Octet> := [0x7d, 0x3b, 0x3d, 0x80, 0x3b, 0x60, 0xe4, 0xab,
                             0x92, 0x09, 0x96, 0xe5, 0x9b, 0x4d, 0x53, 0xb6]
  const OUT7: seq<Octet> := [0x5d, 0x2a, 0x22, 0x58, 0x77, 0xd5, 0xed, 0xf5,
                             0x84, 0x2c, 0xb9, 0xf1, 0x4e, 0xef, 0xe4, 0x25]

  const BLOCK := IN0 + IN1 + IN2 + IN3 + IN4 + IN5 + IN6 + IN7
  const MIXED := OUT0 + OUT1 + OUT2 + OUT3 + OUT4 + OUT5 + OUT6 + OUT7

  const LEFT := Words(0x650bcef7, 0xa4722d3d, 0xabf58c10, 0xddff12e9,
                      0xdb167677, 0x0ea727bb, 0xaef30482, 0xad6f0f2d,
                      0x488ff689, 0x7be8d111, 0x40d73bcc, 0x29fd9f0a,
                      0x84014f09, 0xf3749563, 0x31a1e59a, 0xd7bc1752)
  const RIGHT := Words(0x44914989, 0x22bb1372, 0x4db5256c, 0xfb7063a8,
                       0x804398cd, 0xbb664637, 0xbfb5fc8f, 0xb054c240,
                       0x517cd267, 0xfed54ace, 0x0bc929d8, 0x1b575a50,
                       0xad1c4d7f, 0xda3c526a, 0xbc670e77, 0x897eafea)

  function Row(a: Word, b: Word, c: Word, d: Word): (r: seq<Octet>)
    ensures |r| == 16
  {
    Le32Enc(a) + Le32Enc(b) + Le32Enc(c) + Le32Enc(d)
  }

  function Rows(x: Words): (r: seq<Octet>)
    ensures |r| == 64
  {
    Row(x.x00, x.x01, x.x02, x.x03) + Row(x.x04, x.x05, x.x06, x.x07)
    + Row(x.x08, x.x09, x.x10, x.x11) + Row(x.x12, x.x13, x.x14, x.x15)
  }

  lemma SliceIsRow(X: seq<Word>, r: nat)
    requires |X| == 32 && r < 8
    ensures Encoded(X)[16 * r..16 * r + 16] == Row(X[4 * r], X[4 * r + 1], X[4 * r + 2], X[4 * r + 3])
  {
    hide Le32Enc;
    var slice := Encoded(X)[16 * r..16 * r + 16];
    forall i | 0 <= i < 16
      ensures slice[i] == Row(X[4 * r], X[4 * r + 1], X[4 * r + 2], X[4 * r + 3])[i]
    {
      assert (16 * r + i) / 4 == 4 * r + i / 4 && (16 * r + i) % 4 == i % 4;
    }
  }

  lemma HalfIsRows(X: seq<Word>, h: nat, x: Words)
    requires |X| == 32 && h < 2 && ToWords(X[16 * h..16 * h + 16]) == x
    ensures Encoded(X)[64 * h..64 * h + 64] == Rows(x)
  {
    hide Encoded, Row;
    var half, B := X[16 * h..16 * h + 16], Encoded(X)[64 * h..64 * h + 64];
    RowOfHalf(X, h, half, B, 0);
    RowOfHalf(X, h, half, B, 1);
    RowOfHalf(X, h, half, B, 2);
    RowOfHalf(X, h, half, B, 3);
    assert B == B[0..16] + B[16..32] + B[32..48] + B[48..64];
  }

  lemma RowOfHalf(X: seq<Word>, h: nat, half: seq<Word>, B: seq<Octet>, r: nat)
    requires |X| == 32 && h < 2 && half == X[16 * h..16 * h + 16] && B == Encoded(X)[64 * h..64 * h + 64] && r < 4
    ensures B[16 * r..16 * r + 16] == Row(half[4 * r], half[4 * r + 1], half[4 * r + 2], half[4 * r + 3])
  {
    hide Encoded, Row;
    SliceIsRow(X, 4 * h + r);
    SliceOfSlice(Encoded(X), 64 * h, 16 * r);
    assert half[4 * r] == X[4 * (4 * h + r)] && half[4 * r + 1] == X[4 * (4 * h + r) + 1];
    assert half[4 * r + 2] == X[4 * (4 * h + r) + 2] && half[4 * r + 3] == X[4 * (4 * h + r) + 3];
  }

  lemma SliceOfSlice(B: seq<Octet>, from: nat, at: nat)
    requires from + 64 <= |B| && at + 16 <= 64
    ensures B[from..from + 64][at..at + 16] == B[from + at..from + at + 16]
  {
    var inner, direct := B[from..from + 64][at..at + 16], B[from + at..from + at + 16];
    forall i | 0 <= i < 16 ensures inner[i] == direct[i] {
    }
  }

  lemma EncodedByRows(a: Words, b: Words)
    ensures Encoded(FromWords(a) + FromWords(b)) == Rows(a) + Rows(b)
  {
    hide Encoded, FromWords, ToWords, Rows;
    var X := FromWords(a) + FromWords(b);
    assert X[0..16] == FromWords(a) && X[16..32] == FromWords(b);
    Back(a);
    Back(b);
    HalfIsRows(X, 0, a);
    HalfIsRows(X, 1, b);
    assert Encoded(X) == Encoded(X)[0..64] + Encoded(X)[64..128];
  }

  lemma DecodedEncoded(X: seq<Word>)
    requires |X| == 32
    ensures Decoded(Encoded(X)) == X
  {
    hide Le32Enc, Le32Dec;
    forall k | 0 <= k < 32 ensures Decoded(Encoded(X))[k] == X[k] {
      forall i | 0 <= i < 4 ensures Four(Encoded(X), 4 * k)[i] == Le32Enc(X[k])[i] {
        assert (4 * k + i) / 4 == k && (4 * k + i) % 4 == i;
      }
      assert Four(Encoded(X), 4 * k) == Le32Enc(X[k]);
      Le32Inverse(X[k]);
    }
  }

  lemma LeftRow1()
    ensures Row(0x650bcef7, 0xa4722d3d, 0xabf58c10, 0xddff12e9) == IN0
  {
  }

  lemma LeftRow2()
    ensures Row(0xdb167677, 0x0ea727bb, 0xaef30482, 0xad6f0f2d) == IN1
  {
  }

  lemma LeftRow3()
    ensures Row(0x488ff689, 0x7be8d111, 0x40d73bcc, 0x29fd9f0a) == IN2
  {
  }

  lemma LeftRow4()
    ensures Row(0x84014f09, 0xf3749563, 0x31a1e59a, 0xd7bc1752) == IN3
  {
  }

  lemma RightRow1()
    ensures Row(0x44914989, 0x22bb1372, 0x4db5256c, 0xfb7063a8) == IN4
  {
  }

  lemma RightRow2()
    ensures Row(0x804398cd, 0xbb664637, 0xbfb5fc8f, 0xb054c240) == IN5
  {
  }

  lemma RightRow3()
    ensures Row(0x517cd267, 0xfed54ace, 0x0bc929d8, 0x1b575a50) == IN6
  {
  }

  lemma RightRow4()
    ensures Row(0xad1c4d7f, 0xda3c526a, 0xbc670e77, 0x897eafea) == IN7
  {
  }

  lemma FirstRow1()
    ensures Row(0x9c851fa4, 0x99cc0866, 0xcbca813b, 0x05ef0c02) == OUT0
  {
  }

  lemma FirstRow2()
    ensures Row(0x81214b04, 0x7d33fda2, 0x631c7bfd, 0x292f6896) == OUT1
  {
  }

  lemma FirstRow3()
    ensures Row(0x683139b4, 0xbce6c9e3, 0xb7c56bfe, 0xba966da0) == OUT2
  {
  }

  lemma FirstRow4()
    ensures Row(0x10cc24e4, 0x5c74912c, 0x3d67ad24, 0x818f61c7) == OUT3
  {
  }

  lemma SecondRow1()
    ensures Row(0x75c9ed20, 0xa8813832, 0x4cf64005, 0x3ccd2d16) == OUT4
  {
  }

  lemma SecondRow2()
    ensures Row(0xfe7c0721, 0xe25f8d5f, 0x8f16a4b1, 0xb7783695) == OUT5
  {
  }

  lemma SecondRow3()
    ensures Row(0x803d3b7d, 0xabe4603b, 0xe5960992, 0xb6534d9b) == OUT6
  {
  }

  lemma SecondRow4()
    ensures Row(0x58222a5d, 0xf5edd577, 0xf1b92c84, 0x25e4ef4e) == OUT7
  {
  }

  /** Section 9. */
  lemma Mix()
    ensures Encoded(BlockMix(Decoded(BLOCK))) == MIXED
  {
    hide Salsa, Decoded, Encoded, FromWords, XorAll, Le32Enc, Row, XorWords;
    var X := FromWords(LEFT) + FromWords(RIGHT);
    BlockRows();
    MixedRows();
    EncodedByRows(LEFT, RIGHT);
    EncodedByRows(A_OUT, B_OUT);
    DecodedEncoded(X);
    assert X[..16] == FromWords(LEFT) && X[16..] == FromWords(RIGHT);
    XorEntrywise(RIGHT, LEFT);
    XorEntrywise(A_OUT, RIGHT);
    Differences();
    ACore();
    BCore();
  }

  lemma Differences()
    ensures XorWords(RIGHT, LEFT) == A0 && XorWords(A_OUT, RIGHT) == B0
  {
  }

  lemma BlockRows()
    ensures Rows(LEFT) + Rows(RIGHT) == BLOCK
  {
    hide Row, IN0, IN1, IN2, IN3, IN4, IN5, IN6, IN7;
    LeftRow1();
    LeftRow2();
    LeftRow3();
    LeftRow4();
    RightRow1();
    RightRow2();
    RightRow3();
    RightRow4();
  }

  lemma MixedRows()
    ensures Rows(A_OUT) + Rows(B_OUT) == MIXED
  {
    hide Row, OUT0, OUT1, OUT2, OUT3, OUT4, OUT5, OUT6, OUT7;
    FirstRow1();
    FirstRow2();
    FirstRow3();
    FirstRow4();
    SecondRow1();
    SecondRow2();
    SecondRow3();
    SecondRow4();
  }
}

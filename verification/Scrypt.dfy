/** Scrypt with N = 1024, r = 1 and p = 1, as RFC 7914 has it, and the word-by-word program for it. */
module Scrypt {

  type Word = bv32
  type Octet = bv8

  // ---- words ----

  function Xor(a: Word, b: Word): Word {
    a ^ b
  }

  function Add(a: Word, b: Word): Word {
    a + b
  }

  function Rotl(a: Word, n: Word): Word
    requires n <= 32
  {
    (a << n) | (a >> (32 - n))
  }

  function XorAll(a: seq<Word>, b: seq<Word>): (r: seq<Word>)
    requires |a| == |b|
    ensures |r| == |a|
  {
    seq(|a|, i requires 0 <= i < |a| => Xor(a[i], b[i]))
  }

  function AddAll(a: seq<Word>, b: seq<Word>): (r: seq<Word>)
    requires |a| == |b|
    ensures |r| == |a|
  {
    seq(|a|, i requires 0 <= i < |a| => Add(a[i], b[i]))
  }

  // ---- Salsa20/8, section 3: by quarter rounds, as the Salsa20 specification defines it ----

  datatype Quad = Quad(y0: Word, y1: Word, y2: Word, y3: Word)

  function QuarterRound(y0: Word, y1: Word, y2: Word, y3: Word): Quad {
    var z1 := Xor(y1, Rotl(Add(y0, y3), 7));
    var z2 := Xor(y2, Rotl(Add(z1, y0), 9));
    var z3 := Xor(y3, Rotl(Add(z2, z1), 13));
    var z0 := Xor(y0, Rotl(Add(z3, z2), 18));
    Quad(z0, z1, z2, z3)
  }

  /** Sixteen words, as a matrix by rows. */
  datatype Words = Words(
    x00: Word, x01: Word, x02: Word, x03: Word,
    x04: Word, x05: Word, x06: Word, x07: Word,
    x08: Word, x09: Word, x10: Word, x11: Word,
    x12: Word, x13: Word, x14: Word, x15: Word)

  function ToWords(s: seq<Word>): Words
    requires |s| == 16
  {
    Words(s[0], s[1], s[2], s[3],
          s[4], s[5], s[6], s[7],
          s[8], s[9], s[10], s[11],
          s[12], s[13], s[14], s[15])
  }

  function FromWords(x: Words): (s: seq<Word>)
    ensures |s| == 16
  {
    [x.x00, x.x01, x.x02, x.x03,
     x.x04, x.x05, x.x06, x.x07,
     x.x08, x.x09, x.x10, x.x11,
     x.x12, x.x13, x.x14, x.x15]
  }

  /** A quarter round on each column, from its diagonal element on. */
  function ColumnRound(x: Words): Words {
    var a := QuarterRound(x.x00, x.x04, x.x08, x.x12);
    var b := QuarterRound(x.x05, x.x09, x.x13, x.x01);
    var c := QuarterRound(x.x10, x.x14, x.x02, x.x06);
    var d := QuarterRound(x.x15, x.x03, x.x07, x.x11);
    Words(a.y0, b.y3, c.y2, d.y1,
          a.y1, b.y0, c.y3, d.y2,
          a.y2, b.y1, c.y0, d.y3,
          a.y3, b.y2, c.y1, d.y0)
  }

  /** A quarter round on each row, from its diagonal element on. */
  function RowRound(x: Words): Words {
    var a := QuarterRound(x.x00, x.x01, x.x02, x.x03);
    var b := QuarterRound(x.x05, x.x06, x.x07, x.x04);
    var c := QuarterRound(x.x10, x.x11, x.x08, x.x09);
    var d := QuarterRound(x.x15, x.x12, x.x13, x.x14);
    Words(a.y0, a.y1, a.y2, a.y3,
          b.y3, b.y0, b.y1, b.y2,
          c.y2, c.y3, c.y0, c.y1,
          d.y1, d.y2, d.y3, d.y0)
  }

  function DoubleRounds(x: Words, n: nat): Words {
    if n == 0 then x else RowRound(ColumnRound(DoubleRounds(x, n - 1)))
  }

  function Salsa(s: seq<Word>): (r: seq<Word>)
    requires |s| == 16
    ensures |r| == 16
  {
    AddAll(s, FromWords(DoubleRounds(ToWords(s), 4)))
  }

  // ---- scryptBlockMix and scryptROMix, sections 4 and 5 ----

  const N: nat := 1024

  function BlockMix(B: seq<Word>): (r: seq<Word>)
    requires |B| == 32
    ensures |r| == 32
  {
    var y0 := Salsa(XorAll(B[16..], B[..16]));
    var y1 := Salsa(XorAll(y0, B[16..]));
    y0 + y1
  }

  /** V[i] */
  function Chain(B: seq<Word>, i: nat): (r: seq<Word>)
    requires |B| == 32
    ensures |r| == 32
  {
    if i == 0 then B else BlockMix(Chain(B, i - 1))
  }

  /** The number that octets stand for, least significant first. */
  function Number(p: seq<Octet>): nat {
    if p == [] then 0 else p[0] as nat + 256 * Number(p[1..])
  }

  /** The last 64 octets of the block as a number, modulo N. */
  function Integerify(X: seq<Word>): (j: nat)
    requires |X| == 32
    ensures j < N
  {
    Number(Encoded(X)[64..]) % N
  }

  function Mixed(B: seq<Word>, i: nat): (r: seq<Word>)
    requires |B| == 32
    ensures |r| == 32
  {
    if i == 0 then Chain(B, N)
    else
      var X := Mixed(B, i - 1);
      BlockMix(XorAll(X, Chain(B, Integerify(X))))
  }

  function ROMix(B: seq<Word>): (r: seq<Word>)
    requires |B| == 32
    ensures |r| == 32
  {
    Mixed(B, N)
  }

  lemma MixedStep(B: seq<Word>, i: nat)
    requires |B| == 32
    ensures Mixed(B, 0) == Chain(B, N) && ROMix(B) == Mixed(B, N)
    ensures Mixed(B, i + 1) == BlockMix(XorAll(Mixed(B, i), Chain(B, Integerify(Mixed(B, i)))))
  {
  }

  // ---- octets, and section 6 ----

  function Le32Dec(p: seq<Octet>): Word
    requires |p| == 4
  {
    (p[0] as bv32) + ((p[1] as bv32) << 8) + ((p[2] as bv32) << 16) + ((p[3] as bv32) << 24)
  }

  function Le32Enc(x: Word): (p: seq<Octet>)
    ensures |p| == 4
  {
    [(x & 0xff) as bv8, ((x >> 8) & 0xff) as bv8, ((x >> 16) & 0xff) as bv8, ((x >> 24) & 0xff) as bv8]
  }

  lemma Le32Inverse(x: Word)
    ensures Le32Dec(Le32Enc(x)) == x
  {
  }

  lemma Le32Onto(p: seq<Octet>)
    requires |p| == 4
    ensures Le32Enc(Le32Dec(p)) == p
  {
  }

  /** The low ten bits. */
  function LowTen(x: Word): (j: nat)
    ensures j < N
  {
    (x & 1023) as nat
  }

  lemma LowTenOfOctets(x: Word)
    ensures LowTen(x) == Le32Enc(x)[0] as nat + 256 * ((Le32Enc(x)[1] & 3) as nat)
  {
  }

  lemma LowTwo(p: Octet)
    ensures (p & 3) as nat == (p as nat) % 4
  {
  }

  lemma ModuloN(a: nat, b: nat, rest: nat)
    requires a < 256 && b < 256
    ensures (a + 256 * (b + 256 * rest)) % N == a + 256 * (b % 4)
  {
    assert a + 256 * (b + 256 * rest) == a + 256 * (b % 4) + N * (b / 4 + 64 * rest);
    Residue(a + 256 * (b % 4), b / 4 + 64 * rest);
  }

  lemma Residue(r: nat, q: nat)
    requires r < N
    ensures (r + N * q) % N == r
  {
  }

  /** That residue is read off the first word of the last 64 octets. */
  lemma IntegerifyIsLowTen(X: seq<Word>)
    requires |X| == 32
    ensures Integerify(X) == LowTen(X[16])
  {
    hide Le32Enc, LowTen;
    var p := Encoded(X)[64..];
    assert p[0] == Le32Enc(X[16])[0] && p[1] == Le32Enc(X[16])[1];
    assert Number(p) == p[0] as nat + 256 * (p[1] as nat + 256 * Number(p[2..])) by {
      assert p[1..][1..] == p[2..];
    }
    ModuloN(p[0] as nat, p[1] as nat, Number(p[2..]));
    LowTwo(p[1]);
    LowTenOfOctets(X[16]);
  }

  function Four(B: seq<Octet>, at: nat): seq<Octet>
    requires at + 4 <= |B|
  {
    B[at..at + 4]
  }

  function Decoded(B: seq<Octet>): (r: seq<Word>)
    requires |B| == 128
    ensures |r| == 32
  {
    seq(32, k requires 0 <= k < 32 => Le32Dec(Four(B, 4 * k)))
  }

  /** Word `k` is written in its place. */
  ghost predicate Written(B: seq<Octet>, X: seq<Word>, k: nat)
    requires |B| == 128 && |X| == 32 && k < 32
  {
    Four(B, 4 * k) == Le32Enc(X[k])
  }

  ghost predicate Encodes(B: seq<Octet>, X: seq<Word>)
    requires |B| == 128 && |X| == 32
  {
    forall k :: 0 <= k < 32 ==> Written(B, X, k)
  }

  function Encoded(X: seq<Word>): (B: seq<Octet>)
    requires |X| == 32
    ensures |B| == 128
  {
    seq(128, i requires 0 <= i < 128 => Le32Enc(X[i / 4])[i % 4])
  }

  /** A key derivation: from a password and a salt, that many octets. */
  type Derive = f: (seq<Octet>, seq<Octet>, nat) -> seq<Octet> | forall p, s, n :: |f(p, s, n)| == n 
    witness (p: seq<Octet>, s: seq<Octet>, n: nat) => seq(n, _ => 0)

  /** With the input as password and salt, and 32 octets of output. */
  function ScryptOf(pbkdf2: Derive, input: seq<Octet>): seq<Octet> {
    var B := pbkdf2(input, input, 128);
    pbkdf2(input, Encoded(ROMix(Decoded(B))), 32)
  }

  lemma EncodesOnly(B: seq<Octet>, X: seq<Word>)
    requires |B| == 128 && |X| == 32 && Encodes(B, X)
    ensures B == Encoded(X)
  {
    hide Le32Enc;
    forall i | 0 <= i < 128 ensures B[i] == Encoded(X)[i] {
      assert Written(B, X, i / 4);
      assert Four(B, 4 * (i / 4))[i % 4] == B[i];
    }
  }

  // ---- the program ----

  /** Eight rounds on sixteen variables. */
  method EightRounds(x: Words) returns (y: Words)
    ensures y == DoubleRounds(x, 4)
  {
    hide Xor, Add, Rotl;
    var x00, x01, x02, x03, x04, x05, x06, x07, x08, x09, x10, x11, x12, x13, x14, x15 :=
      x.x00, x.x01, x.x02, x.x03, x.x04, x.x05, x.x06, x.x07, x.x08, x.x09, x.x10, x.x11, x.x12, x.x13, x.x14, x.x15;
    var i := 0;
    while i < 8
      invariant 0 <= i <= 8 && i % 2 == 0
      invariant Words(x00, x01, x02, x03, x04, x05, x06, x07, x08, x09, x10, x11, x12, x13, x14, x15)
                  == DoubleRounds(x, i / 2)
    {
      ghost var before := Words(x00, x01, x02, x03, x04, x05, x06, x07, x08, x09, x10, x11, x12, x13, x14, x15);
      // Columns.
      x04 := Xor(x04, Rotl(Add(x00, x12), 7));  x09 := Xor(x09, Rotl(Add(x05, x01), 7));
      x14 := Xor(x14, Rotl(Add(x10, x06), 7));  x03 := Xor(x03, Rotl(Add(x15, x11), 7));
      x08 := Xor(x08, Rotl(Add(x04, x00), 9));  x13 := Xor(x13, Rotl(Add(x09, x05), 9));
      x02 := Xor(x02, Rotl(Add(x14, x10), 9));  x07 := Xor(x07, Rotl(Add(x03, x15), 9));
      x12 := Xor(x12, Rotl(Add(x08, x04), 13));  x01 := Xor(x01, Rotl(Add(x13, x09), 13));
      x06 := Xor(x06, Rotl(Add(x02, x14), 13));  x11 := Xor(x11, Rotl(Add(x07, x03), 13));
      x00 := Xor(x00, Rotl(Add(x12, x08), 18));  x05 := Xor(x05, Rotl(Add(x01, x13), 18));
      x10 := Xor(x10, Rotl(Add(x06, x02), 18));  x15 := Xor(x15, Rotl(Add(x11, x07), 18));
      assert Words(x00, x01, x02, x03, x04, x05, x06, x07, x08, x09, x10, x11, x12, x13, x14, x15)
        == ColumnRound(before);
      ghost var middle := Words(x00, x01, x02, x03, x04, x05, x06, x07, x08, x09, x10, x11, x12, x13, x14, x15);
      // Rows.
      x01 := Xor(x01, Rotl(Add(x00, x03), 7));  x06 := Xor(x06, Rotl(Add(x05, x04), 7));
      x11 := Xor(x11, Rotl(Add(x10, x09), 7));  x12 := Xor(x12, Rotl(Add(x15, x14), 7));
      x02 := Xor(x02, Rotl(Add(x01, x00), 9));  x07 := Xor(x07, Rotl(Add(x06, x05), 9));
      x08 := Xor(x08, Rotl(Add(x11, x10), 9));  x13 := Xor(x13, Rotl(Add(x12, x15), 9));
      x03 := Xor(x03, Rotl(Add(x02, x01), 13));  x04 := Xor(x04, Rotl(Add(x07, x06), 13));
      x09 := Xor(x09, Rotl(Add(x08, x11), 13));  x14 := Xor(x14, Rotl(Add(x13, x12), 13));
      x00 := Xor(x00, Rotl(Add(x03, x02), 18));  x05 := Xor(x05, Rotl(Add(x04, x07), 18));
      x10 := Xor(x10, Rotl(Add(x09, x08), 18));  x15 := Xor(x15, Rotl(Add(x14, x13), 18));
      assert Words(x00, x01, x02, x03, x04, x05, x06, x07, x08, x09, x10, x11, x12, x13, x14, x15) == RowRound(middle);
      i := i + 2;
    }
    y := Words(x00, x01, x02, x03, x04, x05, x06, x07, x08, x09, x10, x11, x12, x13, x14, x15);
  }

  /** B ^= Bx, then Salsa20/8 of B, in place; B and Bx are the halves of X that begin at `b` and `bx`. */
  method XorSalsa8(X: array<Word>, b: nat, bx: nat)
    requires X.Length == 32 && ((b == 0 && bx == 16) || (b == 16 && bx == 0))
    modifies X
    ensures X[b..b + 16] == Salsa(XorAll(old(X[b..b + 16]), old(X[bx..bx + 16])))
    ensures X[bx..bx + 16] == old(X[bx..bx + 16])
  {
    hide Xor, Add, DoubleRounds, XorAll, AddAll, ToWords, FromWords;
    XorHalf(X, b, bx);
    var y := EightRounds(ToWords(X[b..b + 16]));
    AddHalf(X, b, bx, FromWords(y));
  }

  method XorHalf(X: array<Word>, b: nat, bx: nat)
    requires X.Length == 32 && ((b == 0 && bx == 16) || (b == 16 && bx == 0))
    modifies X
    ensures X[b..b + 16] == XorAll(old(X[b..b + 16]), old(X[bx..bx + 16]))
    ensures X[bx..bx + 16] == old(X[bx..bx + 16])
  {
    hide Xor;
    forall k | 0 <= k < 16 {
      X[b + k] := Xor(X[b + k], X[bx + k]);
    }
  }

  method AddHalf(X: array<Word>, b: nat, bx: nat, out: seq<Word>)
    requires X.Length == 32 && |out| == 16 && ((b == 0 && bx == 16) || (b == 16 && bx == 0))
    modifies X
    ensures X[b..b + 16] == AddAll(old(X[b..b + 16]), out)
    ensures X[bx..bx + 16] == old(X[bx..bx + 16])
  {
    hide Add;
    forall k | 0 <= k < 16 {
      X[b + k] := Add(X[b + k], out[k]);
    }
  }

  /** Both halves: one block mix in place. */
  method MixBlock(X: array<Word>)
    requires X.Length == 32
    modifies X
    ensures X[..] == BlockMix(old(X[..]))
  {
    hide Salsa, Xor;
    ghost var s := X[..];
    assert s[0..16] == s[..16] && s[16..32] == s[16..];
    ghost var y0 := Salsa(XorAll(s[16..], s[..16]));
    XorCommutes(s[..16], s[16..]);
    XorCommutes(s[16..], y0);
    XorSalsa8(X, 0, 16);
    assert X[0..16] == y0 && X[16..32] == s[16..];
    XorSalsa8(X, 16, 0);
    assert X[..] == X[0..16] + X[16..32];
  }

  lemma XorCommutes(a: seq<Word>, b: seq<Word>)
    requires |a| == |b|
    ensures XorAll(a, b) == XorAll(b, a)
  {
    forall i | 0 <= i < |a| ensures Xor(a[i], b[i]) == Xor(b[i], a[i]) {
    }
  }

  /** Block `m` of the scratchpad. */
  function BlockOf(V: seq<Word>, m: nat): seq<Word>
    requires 32 * m + 32 <= |V|
  {
    V[32 * m..32 * m + 32]
  }

  lemma BlockKept(V: seq<Word>, W: seq<Word>, m: nat)
    requires 32 * m + 32 <= |V| == |W| && forall q :: 32 * m <= q < 32 * m + 32 ==> V[q] == W[q]
    ensures BlockOf(V, m) == BlockOf(W, m)
  {
  }

  method Fill(X: array<Word>, V: array<Word>)
    requires X.Length == 32 && V.Length == 32 * N && X != V
    modifies X, V
    ensures X[..] == Chain(old(X[..]), N)
    ensures forall m :: 0 <= m < N ==> BlockOf(V[..], m) == Chain(old(X[..]), m)
  {
    hide BlockMix, BlockOf;
    ghost var B := X[..];
    var i := 0;
    while i < N
      invariant i <= N && X[..] == Chain(B, i)
      invariant forall m :: 0 <= m < i ==> BlockOf(V[..], m) == Chain(B, m)
    {
      SaveBlock(X, V, i);
      MixBlock(X);
      i := i + 1;
    }
  }

  method SaveBlock(X: array<Word>, V: array<Word>, i: nat)
    requires X.Length == 32 && V.Length == 32 * N && X != V && i < N
    modifies V
    ensures BlockOf(V[..], i) == X[..]
    ensures forall m :: 0 <= m < N && m != i ==> BlockOf(V[..], m) == BlockOf(old(V[..]), m)
  {
    ghost var before := V[..];
    forall k | 0 <= k < 32 {
      V[i * 32 + k] := X[k];
    }
    forall m | 0 <= m < N && m != i ensures BlockOf(V[..], m) == BlockOf(before, m) {
      BlockKept(before, V[..], m);
    }
  }

  method Walk(X: array<Word>, V: array<Word>, ghost B: seq<Word>)
    requires X.Length == 32 && V.Length == 32 * N && X != V && |B| == 32 && X[..] == Chain(B, N)
    requires forall m :: 0 <= m < N ==> BlockOf(V[..], m) == Chain(B, m)
    modifies X
    ensures X[..] == ROMix(B)
  {
    hide BlockMix, Chain, XorAll, Mixed, Integerify;
    MixedStep(B, 0);
    ghost var v := V[..];
    var i := 0;
    while i < N
      invariant i <= N && X[..] == Mixed(B, i) && V[..] == v
    {
      MixedStep(B, i);
      var j := LowTen(X[16]);
      IntegerifyIsLowTen(X[..]);
      XorBlock(X, V, j);
      MixBlock(X);
      i := i + 1;
    }
  }

  method XorBlock(X: array<Word>, V: array<Word>, m: nat)
    requires X.Length == 32 && X != V && 32 * m + 32 <= V.Length
    modifies X
    ensures X[..] == XorAll(old(X[..]), BlockOf(V[..], m))
  {
    hide Xor;
    ghost var s := X[..];
    var j, k := 32 * m, 0;
    while k < 32
      invariant k <= 32
      invariant forall q :: 0 <= q < 32 ==> X[q] == if q < k then Xor(s[q], V[j + q]) else s[q]
    {
      X[k] := Xor(X[k], V[j + k]);
      k := k + 1;
    }
  }

  /** The portable program. */
  method ScryptGeneric(pbkdf2: Derive, input: seq<Octet>) returns (output: seq<Octet>)
    ensures output == ScryptOf(pbkdf2, input)
  {
    hide Chain, Mixed, Le32Dec, Le32Enc, Encoded;
    var B := pbkdf2(input, input, 128);
    var X := new Word[32];
    var k := 0;
    while k < 32
      invariant k <= 32 && forall q :: 0 <= q < k ==> X[q] == Le32Dec(Four(B, 4 * q))
    {
      X[k] := Le32Dec(Four(B, 4 * k));
      k := k + 1;
    }
    assert X[..] == Decoded(B);
    var V := new Word[32 * N];
    Fill(X, V);
    Walk(X, V, Decoded(B));
    B := Store(X);
    EncodesOnly(B, X[..]);
    output := pbkdf2(input, B, 32);
  }

  method Store(X: array<Word>) returns (B: seq<Octet>)
    requires X.Length == 32
    ensures |B| == 128 && Encodes(B, X[..])
  {
    hide Le32Enc;
    B := seq(128, _ => 0);
    var k := 0;
    while k < 32
      invariant k <= 32 && |B| == 128
      invariant forall q :: 0 <= q < k ==> Written(B, X[..], q)
    {
      OneMore(B, X[..], k);
      B := Replaced(B, 4 * k, Le32Enc(X[k]));
      k := k + 1;
    }
  }

  /** `B` with four octets at `at` overwritten. */
  function Replaced(B: seq<Octet>, at: nat, p: seq<Octet>): (r: seq<Octet>)
    requires at + 4 <= |B| && |p| == 4
    ensures |r| == |B| && Four(r, at) == p
    ensures forall q: nat :: q + 4 <= |B| && (q + 4 <= at || at + 4 <= q) ==> Four(r, q) == Four(B, q)
  {
    B[..at] + p + B[at + 4..]
  }

  lemma OneMore(B: seq<Octet>, X: seq<Word>, k: nat)
    requires |B| == 128 && |X| == 32 && k < 32
    ensures Written(Replaced(B, 4 * k, Le32Enc(X[k])), X, k)
    ensures forall q :: 0 <= q < 32 && q != k && Written(B, X, q) ==> Written(Replaced(B, 4 * k, Le32Enc(X[k])), X, q)
  {
    hide Le32Enc;
    var r := Replaced(B, 4 * k, Le32Enc(X[k]));
    forall q | 0 <= q < 32 && q != k && Written(B, X, q) ensures Written(r, X, q) {
      assert Four(r, 4 * q) == Four(B, 4 * q);
    }
  }
}

/** The same function with four words to a vector. */
module ScryptSse2 {
  import opened Scrypt

  /** A vector register: four words, called lanes. */
  datatype Vec = Vec(l0: Word, l1: Word, l2: Word, l3: Word)

  function Lane(v: Vec, i: nat): Word
    requires i < 4
  {
    if i == 0 then v.l0 else if i == 1 then v.l1 else if i == 2 then v.l2 else v.l3
  }

  function WithLane(v: Vec, i: nat, x: Word): (u: Vec)
    requires i < 4
    ensures Lane(u, i) == x && forall k :: 0 <= k < 4 && k != i ==> Lane(u, k) == Lane(v, k)
  {
    if i == 0 then v.(l0 := x) else if i == 1 then v.(l1 := x) else if i == 2 then v.(l2 := x) else v.(l3 := x)
  }

  function XorV(a: Vec, b: Vec): Vec {
    Vec(Xor(a.l0, b.l0), Xor(a.l1, b.l1), Xor(a.l2, b.l2), Xor(a.l3, b.l3))
  }

  function AddV(a: Vec, b: Vec): Vec {
    Vec(Add(a.l0, b.l0), Add(a.l1, b.l1), Add(a.l2, b.l2), Add(a.l3, b.l3))
  }

  function ShiftL(a: Word, n: Word): Word
    requires n <= 32
  {
    a << n
  }

  function ShiftR(a: Word, n: Word): Word
    requires n <= 32
  {
    a >> n
  }

  function Slli(a: Vec, n: Word): Vec
    requires n <= 32
  {
    Vec(ShiftL(a.l0, n), ShiftL(a.l1, n), ShiftL(a.l2, n), ShiftL(a.l3, n))
  }

  function Srli(a: Vec, n: Word): Vec
    requires n <= 32
  {
    Vec(ShiftR(a.l0, n), ShiftR(a.l1, n), ShiftR(a.l2, n), ShiftR(a.l3, n))
  }

  /** Lane `i` of the result is the lane that bits 2i and 2i + 1 of `imm` name. */
  function Shuffle(a: Vec, imm: nat): Vec {
    Vec(Lane(a, imm % 4), Lane(a, imm / 4 % 4), Lane(a, imm / 16 % 4), Lane(a, imm / 64 % 4))
  }

  // ---- the layout ----

  /** Where the lane `i` of a half block comes from. */
  function Source(i: nat): (w: nat)
    requires i < 16
    ensures w < 16
  {
    i * 5 % 16
  }

  /** The layout is a permutation of the sixteen words; this is its inverse. */
  function Target(w: nat): (i: nat)
    requires w < 16
    ensures i < 16
  {
    w * 13 % 16
  }

  lemma SourceTarget(i: nat)
    requires i < 16
    ensures Source(Target(i)) == i == Target(Source(i))
  {
    var q, r := i * 5 / 16, i * 5 % 16;
    assert r * 13 == i + 16 * (4 * i - 13 * q);
    Residue(i, 4 * i - 13 * q);
    var p, t := i * 13 / 16, i * 13 % 16;
    assert t * 5 == i + 16 * (4 * i - 5 * p);
    Residue(i, 4 * i - 5 * p);
  }

  lemma Residue(i: nat, k: int)
    requires i < 16
    ensures (i + 16 * k) % 16 == i
  {
  }

  /** Four vectors: half a block. */
  datatype Lanes = Lanes(v0: Vec, v1: Vec, v2: Vec, v3: Vec)

  /** The matrix with its columns, from their diagonal elements on, in the lanes. */
  function Columns(x: Words): Lanes {
    Lanes(Vec(x.x00, x.x05, x.x10, x.x15), Vec(x.x04, x.x09, x.x14, x.x03),
          Vec(x.x08, x.x13, x.x02, x.x07), Vec(x.x12, x.x01, x.x06, x.x11))
  }

  function Pick(v: Lanes, q: nat): Vec
    requires q < 4
  {
    if q == 0 then v.v0 else if q == 1 then v.v1 else if q == 2 then v.v2 else v.v3
  }

  function LanesAt(X: seq<Vec>, b: nat): Lanes
    requires b + 4 <= |X|
  {
    Lanes(X[b], X[b + 1], X[b + 2], X[b + 3])
  }

  /** Sixteen words as four vectors. */
  function Half(s: seq<Word>): Lanes
    requires |s| == 16
  {
    Columns(ToWords(s))
  }

  /** Eight vectors hold the block. */
  ghost predicate Holds(X: seq<Vec>, B: seq<Word>) {
    |X| == 8 && |B| == 32 && LanesAt(X, 0) == Half(B[..16]) && LanesAt(X, 4) == Half(B[16..])
  }

  lemma SourceTable()
    ensures Source(0) == 0 && Source(1) == 5 && Source(2) == 10 && Source(3) == 15
    ensures Source(4) == 4 && Source(5) == 9 && Source(6) == 14 && Source(7) == 3
    ensures Source(8) == 8 && Source(9) == 13 && Source(10) == 2 && Source(11) == 7
    ensures Source(12) == 12 && Source(13) == 1 && Source(14) == 6 && Source(15) == 11
  {
  }

  /** The lanes are taken from where the layout says. */
  lemma HalfAt(s: seq<Word>, i: nat)
    requires |s| == 16 && i < 16
    ensures Lane(Pick(Half(s), i / 4), i % 4) == s[Source(i)]
  {
    hide Source;
    SourceTable();
    if i < 4 {
      assert i / 4 == 0 && i % 4 == i;
    } else if i < 8 {
      assert i / 4 == 1 && i % 4 == i - 4;
    } else if i < 12 {
      assert i / 4 == 2 && i % 4 == i - 8;
    } else {
      assert i / 4 == 3 && i % 4 == i - 12;
    }
  }

  function XorL(a: Lanes, b: Lanes): Lanes {
    Lanes(XorV(a.v0, b.v0), XorV(a.v1, b.v1), XorV(a.v2, b.v2), XorV(a.v3, b.v3))
  }

  function AddL(a: Lanes, b: Lanes): Lanes {
    Lanes(AddV(a.v0, b.v0), AddV(a.v1, b.v1), AddV(a.v2, b.v2), AddV(a.v3, b.v3))
  }

  /** Word by word or vector by vector: the layout does not matter. */
  lemma LayoutXor(a: seq<Word>, b: seq<Word>)
    requires |a| == 16 == |b|
    ensures XorL(Half(a), Half(b)) == Half(XorAll(a, b))
  {
    hide Xor;
  }

  lemma LayoutAdd(a: seq<Word>, x: Words)
    requires |a| == 16
    ensures AddL(Half(a), Columns(x)) == Half(AddAll(a, FromWords(x)))
  {
    hide Add;
  }

  // ---- rounds on lanes ----

  /** The matrix with its rows, from their diagonal elements on, in the lanes. */
  function Rows(x: Words): Lanes {
    Lanes(Vec(x.x00, x.x05, x.x10, x.x15), Vec(x.x01, x.x06, x.x11, x.x12),
          Vec(x.x02, x.x07, x.x08, x.x13), Vec(x.x03, x.x04, x.x09, x.x14))
  }

  /** A quarter round in every lane. */
  function LaneRound(v: Lanes): Lanes {
    var a := QuarterRound(v.v0.l0, v.v1.l0, v.v2.l0, v.v3.l0);
    var b := QuarterRound(v.v0.l1, v.v1.l1, v.v2.l1, v.v3.l1);
    var c := QuarterRound(v.v0.l2, v.v1.l2, v.v2.l2, v.v3.l2);
    var d := QuarterRound(v.v0.l3, v.v1.l3, v.v2.l3, v.v3.l3);
    Lanes(Vec(a.y0, b.y0, c.y0, d.y0), Vec(a.y1, b.y1, c.y1, d.y1), Vec(a.y2, b.y2, c.y2, d.y2),
          Vec(a.y3, b.y3, c.y3, d.y3))
  }

  lemma ColumnsByLanes(x: Words)
    ensures Columns(ColumnRound(x)) == LaneRound(Columns(x))
  {
    hide QuarterRound;
  }

  lemma RowsByLanes(x: Words)
    ensures Rows(RowRound(x)) == LaneRound(Rows(x))
  {
    hide QuarterRound;
  }

  /** The shuffles turn columns into rows and back. */
  lemma Turned(x: Words)
    ensures var c := Columns(x); Rows(x) == Lanes(c.v0, Shuffle(c.v3, 0x39), Shuffle(c.v2, 0x4E), Shuffle(c.v1, 0x93))
    ensures var r := Rows(x); Columns(x) == Lanes(r.v0, Shuffle(r.v3, 0x39), Shuffle(r.v2, 0x4E), Shuffle(r.v1, 0x93))
  {
    hide Shuffle;
    Shuffles(Columns(x).v3, Columns(x).v2, Columns(x).v1);
    Shuffles(Rows(x).v3, Rows(x).v2, Rows(x).v1);
  }

  lemma Shuffles(a: Vec, b: Vec, c: Vec)
    ensures Shuffle(a, 0x39) == Vec(a.l1, a.l2, a.l3, a.l0)
    ensures Shuffle(b, 0x4E) == Vec(b.l2, b.l3, b.l0, b.l1)
    ensures Shuffle(c, 0x93) == Vec(c.l3, c.l0, c.l1, c.l2)
  {
  }

  function RotlV(t: Vec, n: Word): Vec
    requires n <= 32
  {
    Vec(Rotl(t.l0, n), Rotl(t.l1, n), Rotl(t.l2, n), Rotl(t.l3, n))
  }

  lemma RotateV(x: Vec, t: Vec)
    ensures XorV(XorV(x, Slli(t, 7)), Srli(t, 25)) == XorV(x, RotlV(t, 7))
    ensures XorV(XorV(x, Slli(t, 9)), Srli(t, 23)) == XorV(x, RotlV(t, 9))
    ensures XorV(XorV(x, Slli(t, 13)), Srli(t, 19)) == XorV(x, RotlV(t, 13))
    ensures XorV(XorV(x, Slli(t, 18)), Srli(t, 14)) == XorV(x, RotlV(t, 18))
  {
    hide Xor, Rotl, ShiftL, ShiftR;
    RotateLane(x.l0, t.l0);
    RotateLane(x.l1, t.l1);
    RotateLane(x.l2, t.l2);
    RotateLane(x.l3, t.l3);
  }

  lemma RotateLane(x: Word, t: Word)
    ensures Xor(Xor(x, ShiftL(t, 7)), ShiftR(t, 25)) == Xor(x, Rotl(t, 7))
    ensures Xor(Xor(x, ShiftL(t, 9)), ShiftR(t, 23)) == Xor(x, Rotl(t, 9))
    ensures Xor(Xor(x, ShiftL(t, 13)), ShiftR(t, 19)) == Xor(x, Rotl(t, 13))
    ensures Xor(Xor(x, ShiftL(t, 18)), ShiftR(t, 14)) == Xor(x, Rotl(t, 18))
  {
    hide Xor, Rotl, ShiftL, ShiftR;
    Rotate7(x, t);
    Rotate9(x, t);
    Rotate13(x, t);
    Rotate18(x, t);
  }

  // The two halves of a rotation, put in one after the other.
  lemma Rotate7(x: Word, t: Word)
    ensures Xor(Xor(x, ShiftL(t, 7)), ShiftR(t, 25)) == Xor(x, Rotl(t, 7))
  {
  }

  lemma Rotate9(x: Word, t: Word)
    ensures Xor(Xor(x, ShiftL(t, 9)), ShiftR(t, 23)) == Xor(x, Rotl(t, 9))
  {
  }

  lemma Rotate13(x: Word, t: Word)
    ensures Xor(Xor(x, ShiftL(t, 13)), ShiftR(t, 19)) == Xor(x, Rotl(t, 13))
  {
  }

  lemma Rotate18(x: Word, t: Word)
    ensures Xor(Xor(x, ShiftL(t, 18)), ShiftR(t, 14)) == Xor(x, Rotl(t, 18))
  {
  }

  /** Half a double round: additions, shifts and exclusive ors of whole vectors. */
  method LaneStep(a0: Vec, a1: Vec, a2: Vec, a3: Vec) returns (b0: Vec, b1: Vec, b2: Vec, b3: Vec)
    ensures Lanes(b0, b1, b2, b3) == LaneRound(Lanes(a0, a1, a2, a3))
  {
    hide Slli, Srli, Xor, Add, Rotl;
    var T := AddV(a0, a3);
    RotateV(a1, T);
    b1 := XorV(a1, Slli(T, 7));
    b1 := XorV(b1, Srli(T, 25));
    T := AddV(b1, a0);
    RotateV(a2, T);
    b2 := XorV(a2, Slli(T, 9));
    b2 := XorV(b2, Srli(T, 23));
    T := AddV(b2, b1);
    RotateV(a3, T);
    b3 := XorV(a3, Slli(T, 13));
    b3 := XorV(b3, Srli(T, 19));
    T := AddV(b3, b2);
    RotateV(a0, T);
    b0 := XorV(a0, Slli(T, 18));
    b0 := XorV(b0, Srli(T, 14));
  }

  /** The eight rounds on four variables: columns and rows take the same step, with a shuffle in between. */
  method EightRoundsSse2(ghost w: Words, x: Lanes) returns (y: Lanes)
    requires x == Columns(w)
    ensures y == Columns(DoubleRounds(w, 4))
  {
    hide ColumnRound, RowRound, LaneRound, Columns, Rows, Shuffle;
    var X0, X1, X2, X3 := x.v0, x.v1, x.v2, x.v3;
    var i := 0;
    while i < 8
      invariant 0 <= i <= 8 && i % 2 == 0
      invariant Columns(DoubleRounds(w, i / 2)) == Lanes(X0, X1, X2, X3)
    {
      ghost var v := DoubleRounds(w, i / 2);
      ColumnsByLanes(v);
      X0, X1, X2, X3 := LaneStep(X0, X1, X2, X3);
      Turned(ColumnRound(v));
      X1, X2, X3 := Shuffle(X1, 0x93), Shuffle(X2, 0x4E), Shuffle(X3, 0x39);
      RowsByLanes(ColumnRound(v));
      X0, X3, X2, X1 := LaneStep(X0, X3, X2, X1);
      Turned(RowRound(ColumnRound(v)));
      X1, X2, X3 := Shuffle(X1, 0x39), Shuffle(X2, 0x4E), Shuffle(X3, 0x93);
      i := i + 2;
    }
    y := Lanes(X0, X1, X2, X3);
  }

  // ---- the program ----

  /** B ^= Bx, then Salsa20/8 of B, in place; B and Bx are the halves of X that begin at vectors `b` and `bx`. */
  method XorSalsa8Sse2(X: array<Vec>, b: nat, bx: nat, ghost s: seq<Word>, ghost t: seq<Word>)
    requires X.Length == 8 && ((b == 0 && bx == 4) || (b == 4 && bx == 0))
    requires |s| == 16 == |t| && LanesAt(X[..], b) == Half(s) && LanesAt(X[..], bx) == Half(t)
    modifies X
    ensures LanesAt(X[..], b) == Half(Salsa(XorAll(s, t)))
    ensures LanesAt(X[..], bx) == Half(t)
  {
    hide Columns, ToWords, FromWords, XorAll, AddAll, DoubleRounds, LanesAt, XorL, AddL;
    XorInto(X, b, bx);
    LayoutXor(s, t);
    ghost var u := XorAll(s, t);
    var y := EightRoundsSse2(ToWords(u), LanesAt(X[..], b));
    AddInto(X, b, bx, y);
    LayoutAdd(u, DoubleRounds(ToWords(u), 4));
  }

  method XorInto(X: array<Vec>, b: nat, bx: nat)
    requires X.Length == 8 && ((b == 0 && bx == 4) || (b == 4 && bx == 0))
    modifies X
    ensures LanesAt(X[..], b) == XorL(LanesAt(old(X[..]), b), LanesAt(old(X[..]), bx))
    ensures LanesAt(X[..], bx) == LanesAt(old(X[..]), bx)
  {
    hide XorV;
    X[b], X[b + 1], X[b + 2], X[b + 3] :=
      XorV(X[b], X[bx]), XorV(X[b + 1], X[bx + 1]), XorV(X[b + 2], X[bx + 2]), XorV(X[b + 3], X[bx + 3]);
  }

  method AddInto(X: array<Vec>, b: nat, bx: nat, y: Lanes)
    requires X.Length == 8 && ((b == 0 && bx == 4) || (b == 4 && bx == 0))
    modifies X
    ensures LanesAt(X[..], b) == AddL(LanesAt(old(X[..]), b), y)
    ensures LanesAt(X[..], bx) == LanesAt(old(X[..]), bx)
  {
    hide AddV;
    X[b], X[b + 1], X[b + 2], X[b + 3] :=
      AddV(X[b], y.v0), AddV(X[b + 1], y.v1), AddV(X[b + 2], y.v2), AddV(X[b + 3], y.v3);
  }

  /** Both halves: one block mix in place. */
  method MixBlockSse2(X: array<Vec>, ghost B: seq<Word>)
    requires X.Length == 8 && Holds(X[..], B)
    modifies X
    ensures Holds(X[..], BlockMix(B))
  {
    hide Salsa, Half, XorAll, LanesAt;
    ghost var y0 := Salsa(XorAll(B[16..], B[..16]));
    ghost var y1 := Salsa(XorAll(y0, B[16..]));
    XorCommutes(B[..16], B[16..]);
    XorCommutes(B[16..], y0);
    XorSalsa8Sse2(X, 0, 4, B[..16], B[16..]);
    XorSalsa8Sse2(X, 4, 0, B[16..], y0);
    assert (y0 + y1)[..16] == y0 && (y0 + y1)[16..] == y1;
  }

  /** Block `m` of the scratchpad. */
  function VecsOf(V: seq<Vec>, m: nat): seq<Vec>
    requires 8 * m + 8 <= |V|
  {
    V[8 * m..8 * m + 8]
  }

  lemma VecsKept(V: seq<Vec>, W: seq<Vec>, m: nat)
    requires 8 * m + 8 <= |V| == |W| && forall q :: 8 * m <= q < 8 * m + 8 ==> V[q] == W[q]
    ensures VecsOf(V, m) == VecsOf(W, m)
  {
  }

  method FillSse2(X: array<Vec>, V: array<Vec>, ghost B: seq<Word>)
    requires X.Length == 8 && V.Length == 8 * N && X != V && |B| == 32 && Holds(X[..], B)
    modifies X, V
    ensures Holds(X[..], Chain(B, N))
    ensures forall m :: 0 <= m < N ==> Holds(VecsOf(V[..], m), Chain(B, m))
  {
    hide BlockMix, Holds, VecsOf;
    var i := 0;
    while i < N
      invariant i <= N && Holds(X[..], Chain(B, i))
      invariant forall m :: 0 <= m < i ==> Holds(VecsOf(V[..], m), Chain(B, m))
    {
      SaveVecs(X, V, i);
      MixBlockSse2(X, Chain(B, i));
      i := i + 1;
    }
  }

  method SaveVecs(X: array<Vec>, V: array<Vec>, i: nat)
    requires X.Length == 8 && V.Length == 8 * N && X != V && i < N
    modifies V
    ensures VecsOf(V[..], i) == X[..]
    ensures forall m :: 0 <= m < N && m != i ==> VecsOf(V[..], m) == VecsOf(old(V[..]), m)
  {
    ghost var before := V[..];
    forall k | 0 <= k < 8 {
      V[i * 8 + k] := X[k];
    }
    forall m | 0 <= m < N && m != i ensures VecsOf(V[..], m) == VecsOf(before, m) {
      VecsKept(before, V[..], m);
    }
  }

  method WalkSse2(X: array<Vec>, V: array<Vec>, ghost B: seq<Word>)
    requires X.Length == 8 && V.Length == 8 * N && X != V && |B| == 32 && Holds(X[..], Chain(B, N))
    requires forall m :: 0 <= m < N ==> Holds(VecsOf(V[..], m), Chain(B, m))
    modifies X
    ensures Holds(X[..], ROMix(B))
  {
    hide BlockMix, Chain, Mixed, XorAll, Holds, VecsOf;
    MixedStep(B, 0);
    ghost var v := V[..];
    var i := 0;
    while i < N
      invariant i <= N && Holds(X[..], Mixed(B, i)) && V[..] == v
    {
      MixedStep(B, i);
      JumpSse2(X, V, Mixed(B, i), B);
      i := i + 1;
    }
  }

  /** One step of the second loop: xor with the block that the state points to, and mix. */
  method JumpSse2(X: array<Vec>, V: array<Vec>, ghost s: seq<Word>, ghost B: seq<Word>)
    requires X.Length == 8 && V.Length == 8 * N && X != V && |B| == 32 == |s| && Holds(X[..], s)
    requires forall m :: 0 <= m < N ==> Holds(VecsOf(V[..], m), Chain(B, m))
    modifies X
    ensures Holds(X[..], BlockMix(XorAll(s, Chain(B, Integerify(s)))))
  {
    hide BlockMix, Chain, XorAll, XorV, Holds, VecsOf, Integerify, Lane, LowTen;
    ghost var x, jump := X[..], Integerify(s);
    JumpIs(x, s);
    var j := LowTen(Lane(X[4], 0));
    assert j == jump && Holds(VecsOf(V[..], j), Chain(B, j));
    XorVecs(X, V, j);
    LayoutXorBlock(x, VecsOf(V[..], j), X[..], s, Chain(B, j));
    MixBlockSse2(X, XorAll(s, Chain(B, j)));
  }

  lemma JumpIs(X: seq<Vec>, s: seq<Word>)
    requires Holds(X, s)
    ensures LowTen(Lane(X[4], 0)) == Integerify(s)
  {
    hide Integerify, LowTen;
    IntegerifyIsLowTen(s);
    assert Lane(X[4], 0) == s[16];
  }

  method XorVecs(X: array<Vec>, V: array<Vec>, m: nat)
    requires X.Length == 8 && X != V && 8 * m + 8 <= V.Length
    modifies X
    ensures forall q :: 0 <= q < 8 ==> X[..][q] == XorV(old(X[..])[q], VecsOf(V[..], m)[q])
  {
    hide XorV;
    ghost var s := X[..];
    var j, k := 8 * m, 0;
    while k < 8
      invariant k <= 8
      invariant forall q :: 0 <= q < 8 ==> X[q] == if q < k then XorV(s[q], V[j + q]) else s[q]
    {
      X[k] := XorV(X[k], V[j + k]);
      k := k + 1;
    }
  }

  lemma LayoutXorBlock(x: seq<Vec>, v: seq<Vec>, r: seq<Vec>, a: seq<Word>, b: seq<Word>)
    requires Holds(x, a) && Holds(v, b) && |r| == 8 && forall q :: 0 <= q < 8 ==> r[q] == XorV(x[q], v[q])
    ensures Holds(r, XorAll(a, b))
  {
    hide Xor, XorV, Half;
    LayoutXor(a[..16], b[..16]);
    LayoutXor(a[16..], b[16..]);
    assert XorAll(a, b)[..16] == XorAll(a[..16], b[..16]) && XorAll(a, b)[16..] == XorAll(a[16..], b[16..]);
    assert LanesAt(r, 0) == XorL(LanesAt(x, 0), LanesAt(v, 0)) && LanesAt(r, 4) == XorL(LanesAt(x, 4), LanesAt(v, 4));
  }

  // ---- in and out of the layout ----

  /** Word `p` of the eight vectors, in memory order. */
  function U32(X: seq<Vec>, p: nat): Word
    requires |X| == 8 && p < 32
  {
    Lane(X[p / 4], p % 4)
  }

  /** The word of the block that belongs there. */
  function Placed(B: seq<Word>, p: nat): Word
    requires |B| == 32 && p < 32
  {
    B[p / 16 * 16 + Source(p % 16)]
  }

  ghost predicate InPlace(X: seq<Vec>, B: seq<Word>, k: nat, i: nat)
    requires |X| == 8 && |B| == 32 && k < 2 && i < 16
  {
    U32(X, k * 16 + i) == Placed(B, k * 16 + i)
  }

  /** Eight vectors hold a block exactly when every word is in its place. */
  lemma HoldsPlaced(X: seq<Vec>, B: seq<Word>)
    requires |X| == 8 && |B| == 32
    ensures Holds(X, B) <==> forall p :: 0 <= p < 32 ==> U32(X, p) == Placed(B, p)
  {
    hide Half, InPlace, LanesAt, U32, Placed, Source, Lane, Pick;
    HalfInPlace(X, B, 0, B[..16]);
    HalfInPlace(X, B, 1, B[16..]);
    forall k, i | 0 <= k < 2 && 0 <= i < 16
      ensures InPlace(X, B, k, i) <==> U32(X, k * 16 + i) == Placed(B, k * 16 + i)
    {
      InPlaceMeans(X, B, k, i);
    }
    forall p | 0 <= p < 32 ensures U32(X, p) == Placed(B, p) <==> InPlace(X, B, p / 16, p % 16) {
      assert p / 16 * 16 + p % 16 == p;
    }
  }

  lemma InPlaceMeans(X: seq<Vec>, B: seq<Word>, k: nat, i: nat)
    requires |X| == 8 && |B| == 32 && k < 2 && i < 16
    ensures InPlace(X, B, k, i) <==> U32(X, k * 16 + i) == Placed(B, k * 16 + i)
  {
  }

  lemma HalfInPlace(X: seq<Vec>, B: seq<Word>, k: nat, s: seq<Word>)
    requires |X| == 8 && |B| == 32 && k < 2 && s == B[16 * k..16 * k + 16]
    ensures LanesAt(X, 4 * k) == Half(s) <==> forall i :: 0 <= i < 16 ==> InPlace(X, B, k, i)
  {
    hide Half, LanesAt, U32, Placed, Source, Lane, Pick;
    HalfHolds(LanesAt(X, 4 * k), s);
    forall i | 0 <= i < 16
      ensures InPlace(X, B, k, i) <==> Lane(Pick(LanesAt(X, 4 * k), i / 4), i % 4) == s[Source(i)]
    {
      WordAt(X, k, i);
      PlacedAt(B, k, i);
    }
  }

  lemma HalfHolds(v: Lanes, s: seq<Word>)
    requires |s| == 16
    ensures v == Half(s) <==> forall i :: 0 <= i < 16 ==> Lane(Pick(v, i / 4), i % 4) == s[Source(i)]
  {
    hide Half, Source, Lane, Pick;
    forall i | 0 <= i < 16 ensures Lane(Pick(Half(s), i / 4), i % 4) == s[Source(i)] {
      HalfAt(s, i);
    }
    SameLanes(v, Half(s));
  }

  lemma WordAt(X: seq<Vec>, k: nat, i: nat)
    requires |X| == 8 && k < 2 && i < 16
    ensures U32(X, k * 16 + i) == Lane(Pick(LanesAt(X, 4 * k), i / 4), i % 4)
  {
    hide Lane;
    PickAt(X, 4 * k, i / 4);
    assert (k * 16 + i) / 4 == 4 * k + i / 4 && (k * 16 + i) % 4 == i % 4;
  }

  lemma PickAt(X: seq<Vec>, b: nat, q: nat)
    requires b + 4 <= |X| && q < 4
    ensures Pick(LanesAt(X, b), q) == X[b + q]
  {
  }

  lemma SameLanes(a: Lanes, b: Lanes)
    ensures a == b <==> forall i :: 0 <= i < 16 ==> Lane(Pick(a, i / 4), i % 4) == Lane(Pick(b, i / 4), i % 4)
  {
    if forall i :: 0 <= i < 16 ==> Lane(Pick(a, i / 4), i % 4) == Lane(Pick(b, i / 4), i % 4) {
      forall q | 0 <= q < 4 ensures Pick(a, q) == Pick(b, q) {
        SameVec(a, b, q);
      }
      assert Pick(a, 0) == Pick(b, 0) && Pick(a, 1) == Pick(b, 1) && Pick(a, 2) == Pick(b, 2);
      assert Pick(a, 3) == Pick(b, 3);
    }
  }

  lemma SameVec(a: Lanes, b: Lanes, q: nat)
    requires q < 4 && forall i :: 0 <= i < 16 ==> Lane(Pick(a, i / 4), i % 4) == Lane(Pick(b, i / 4), i % 4)
    ensures Pick(a, q) == Pick(b, q)
  {
    var (u, v) := (Pick(a, q), Pick(b, q));
    forall r | 0 <= r < 4 ensures Lane(u, r) == Lane(v, r) {
      var i := 4 * q + r;
      assert i / 4 == q && i % 4 == r;
      assert Lane(Pick(a, i / 4), i % 4) == Lane(Pick(b, i / 4), i % 4);
    }
    hide Pick;
    assert Lane(u, 0) == Lane(v, 0) && Lane(u, 1) == Lane(v, 1) && Lane(u, 2) == Lane(v, 2) && Lane(u, 3) == Lane(v, 3);
  }

  lemma PlacedAt(B: seq<Word>, k: nat, i: nat)
    requires |B| == 32 && k < 2 && i < 16
    ensures Placed(B, k * 16 + i) == B[k * 16 + Source(i)]
  {
    hide Source;
    assert (k * 16 + i) / 16 == k && (k * 16 + i) % 16 == i;
  }

  method Load(B: seq<Octet>) returns (X: array<Vec>)
    requires |B| == 128
    ensures fresh(X) && X.Length == 8 && Holds(X[..], Decoded(B))
  {
    hide Le32Dec, Holds, Source, Placed, U32;
    X := new Vec[8](_ => Vec(0, 0, 0, 0));
    var k := 0;
    while k < 2
      invariant k <= 2
      invariant forall p :: 0 <= p < 16 * k ==> U32(X[..], p) == Placed(Decoded(B), p)
    {
      var i := 0;
      while i < 16
        invariant i <= 16
        invariant forall p :: 0 <= p < 16 * k + i ==> U32(X[..], p) == Placed(Decoded(B), p)
      {
        PlacedAt(Decoded(B), k, i);
        SetU32(X, k * 16 + i, Le32Dec(Four(B, (k * 16 + Source(i)) * 4)));
        i := i + 1;
      }
      k := k + 1;
    }
    HoldsPlaced(X[..], Decoded(B));
  }

  method SetU32(X: array<Vec>, p: nat, x: Word)
    requires X.Length == 8 && p < 32
    modifies X
    ensures U32(X[..], p) == x && forall q :: 0 <= q < 32 && q != p ==> U32(X[..], q) == U32(old(X[..]), q)
  {
    hide Lane;
    X[p / 4] := WithLane(X[p / 4], p % 4, x);
  }

  lemma HoldsFacts(X: seq<Vec>, S: seq<Word>)
    requires Holds(X, S)
    ensures |X| == 8 && |S| == 32
  {
  }

  method StoreSse2(X: seq<Vec>, ghost S: seq<Word>) returns (B: seq<Octet>)
    requires Holds(X, S)
    ensures |B| == 128 && Encodes(B, S)
  {
    hide Le32Enc, Holds, Source, Written, Placed, U32;
    HoldsFacts(X, S);
    HoldsPlaced(X, S);
    B := seq(128, _ => 0);
    var k := 0;
    while k < 2
      invariant k <= 2 && |B| == 128
      invariant forall q :: 0 <= q < 16 * k ==> Written(B, S, q)
    {
      var i := 0;
      while i < 16
        invariant i <= 16 && |B| == 128
        invariant forall q :: 0 <= q < 16 * k ==> Written(B, S, q)
        invariant forall m :: 0 <= m < i ==> Written(B, S, 16 * k + Source(m))
      {
        PlacedAt(S, k, i);
        forall m | 0 <= m < i ensures Source(m) != Source(i) {
          SourceTarget(m);
          SourceTarget(i);
        }
        OneMore(B, S, k * 16 + Source(i));
        B := Replaced(B, 4 * (k * 16 + Source(i)), Le32Enc(U32(X, k * 16 + i)));
        i := i + 1;
      }
      forall q | 16 * k <= q < 16 * (k + 1) ensures Written(B, S, q) {
        SourceTarget(q - 16 * k);
        assert Written(B, S, 16 * k + Source(Target(q - 16 * k)));
      }
      k := k + 1;
    }
  }

  /** The vector program computes the same function as the portable one, on every input. */
  method ScryptSse2(pbkdf2: Derive, input: seq<Octet>) returns (output: seq<Octet>)
    ensures output == ScryptOf(pbkdf2, input)
  {
    hide Chain, Mixed, Holds, Encoded, Encodes;
    var B := pbkdf2(input, input, 128);
    var X := Load(B);
    var V := new Vec[8 * N](_ => Vec(0, 0, 0, 0));
    ghost var words := Decoded(B);
    FillSse2(X, V, words);
    WalkSse2(X, V, words);
    B := StoreSse2(X[..], ROMix(words));
    EncodesOnly(B, ROMix(words));
    output := pbkdf2(input, B, 32);
  }
}

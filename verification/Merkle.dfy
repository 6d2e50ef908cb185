/** Merkle trees over the transactions of a block: the flat array, the recursive hash, and branches. */
module Merkle {
  import opened Powers

  /** A 256-bit digest, of which only equality and zero matter. */
  type Digest = int

  const ZERO: Digest := 0

  /** The hash of two digests put together. */
  type Combine = (Digest, Digest) -> Digest

  // ---- sizes ----

  /** The number of nodes at a height, for `n` transactions. */
  function CalcTreeWidth(n: nat, height: nat): nat {
    Shr(n + Shl(1, height) - 1, height)
  }

  /** A node is there exactly when it has a first leaf. */
  lemma {:induction false} NodeThere(n: nat, height: nat, pos: nat)
    ensures pos < CalcTreeWidth(n, height) <==> Shl(pos, height) < n
  {
    hide Shl, Shr;
    ShiftsMeet(pos + 1, n + Shl(1, height) - 1, height);
    ShlSum(pos, 1, height);
  }

  /** Each level is half the level below, rounded up. */
  lemma WidthHalves(n: nat, height: nat)
    ensures CalcTreeWidth(n, height + 1) == (CalcTreeWidth(n, height) + 1) / 2
  {
    hide CalcTreeWidth;
    var w, v := CalcTreeWidth(n, height), CalcTreeWidth(n, height + 1);
    Doubled(n, height, v);
    if v > 0 {
      Doubled(n, height, v - 1);
    }
  }

  lemma Doubled(n: nat, height: nat, pos: nat)
    ensures pos < CalcTreeWidth(n, height + 1) <==> 2 * pos < CalcTreeWidth(n, height)
  {
    hide CalcTreeWidth;
    NodeThere(n, height + 1, pos);
    NodeThere(n, height, 2 * pos);
    ShlSum(pos, pos, height);
  }

  lemma WidthOfLeaves(n: nat)
    ensures CalcTreeWidth(n, 0) == n
  {
  }

  /** The height of the tree. */
  function HeightFrom(n: nat, height: nat): (r: nat)
    ensures r >= height && CalcTreeWidth(n, r) <= 1
    ensures forall h :: height <= h < r ==> CalcTreeWidth(n, h) > 1
    decreases CalcTreeWidth(n, height)
  {
    if CalcTreeWidth(n, height) <= 1 then height
    else
      WidthHalves(n, height);
      HeightFrom(n, height + 1)
  }

  function Height(n: nat): nat {
    HeightFrom(n, 0)
  }

  lemma StillThere(n: nat, height: nat)
    requires n >= 1
    ensures CalcTreeWidth(n, height) >= 1
  {
    ShlSum(0, 0, height);
    NodeThere(n, height, 0);
  }

  lemma RootThere(n: nat)
    requires n >= 1
    ensures CalcTreeWidth(n, Height(n)) == 1
  {
    StillThere(n, Height(n));
  }

  // ---- the tree, level by level ----

  /** The level above: pairs combined, the last one with itself if it is left over. */
  function Above(H: Combine, level: seq<Digest>): (r: seq<Digest>)
    ensures |r| == (|level| + 1) / 2
  {
    seq((|level| + 1) / 2, i requires 0 <= i < (|level| + 1) / 2 =>
      H(level[2 * i], if 2 * i + 1 < |level| then level[2 * i + 1] else level[2 * i]))
  }

  function RootOf(H: Combine, level: seq<Digest>): Digest
    decreases |level|
  {
    if |level| == 0 then ZERO else if |level| == 1 then level[0] else RootOf(H, Above(H, level))
  }

  /** All levels one after the other. */
  function Flat(H: Combine, level: seq<Digest>): seq<Digest>
    decreases |level|
  {
    if |level| <= 1 then level else level + Flat(H, Above(H, level))
  }

  lemma {:induction false} FlatEndsWithRoot(H: Combine, level: seq<Digest>)
    ensures level <= Flat(H, level)
    ensures level != [] ==> Flat(H, level)[|Flat(H, level)| - 1] == RootOf(H, level)
    decreases |level|
  {
    if |level| > 1 {
      FlatEndsWithRoot(H, Above(H, level));
    }
  }

  /** The hash of a node, from the leaves. */
  function CalcHash(H: Combine, vTxid: seq<Digest>, height: nat, pos: nat): Digest
    requires pos < CalcTreeWidth(|vTxid|, height)
    decreases height
  {
    if height == 0 then
      WidthOfLeaves(|vTxid|);
      vTxid[pos]
    else
      WidthHalves(|vTxid|, height - 1);
      var left := CalcHash(H, vTxid, height - 1, 2 * pos);
      if 2 * pos + 1 < CalcTreeWidth(|vTxid|, height - 1) then
        H(left, CalcHash(H, vTxid, height - 1, 2 * pos + 1))
      else
        H(left, left)
  }

  function Level(H: Combine, vTxid: seq<Digest>, height: nat): seq<Digest> {
    if height == 0 then vTxid else Above(H, Level(H, vTxid, height - 1))
  }

  /** The recursive hash is the level-wise one. */
  lemma {:induction false} LevelIsHash(H: Combine, vTxid: seq<Digest>, height: nat)
    ensures |Level(H, vTxid, height)| == CalcTreeWidth(|vTxid|, height)
    ensures forall pos :: 0 <= pos < CalcTreeWidth(|vTxid|, height) ==>
              Level(H, vTxid, height)[pos] == CalcHash(H, vTxid, height, pos)
  {
    hide CalcTreeWidth, Above;
    if height == 0 {
      WidthOfLeaves(|vTxid|);
    } else {
      LevelIsHash(H, vTxid, height - 1);
      WidthHalves(|vTxid|, height - 1);
      var below := Level(H, vTxid, height - 1);
      forall pos | 0 <= pos < CalcTreeWidth(|vTxid|, height)
        ensures Above(H, below)[pos] == CalcHash(H, vTxid, height, pos)
      {
        AboveAt(H, below, pos);
        HashAbove(H, vTxid, height, pos);
      }
    }
  }

  lemma HashAbove(H: Combine, vTxid: seq<Digest>, height: nat, pos: nat)
    requires height > 0 && pos < CalcTreeWidth(|vTxid|, height)
    ensures 2 * pos < CalcTreeWidth(|vTxid|, height - 1)
    ensures CalcHash(H, vTxid, height, pos)
         == H(CalcHash(H, vTxid, height - 1, 2 * pos),
              CalcHash(H, vTxid, height - 1,
                       if 2 * pos + 1 < CalcTreeWidth(|vTxid|, height - 1) then 2 * pos + 1 else 2 * pos))
  {
    hide CalcTreeWidth;
    WidthHalves(|vTxid|, height - 1);
  }

  lemma AboveAt(H: Combine, level: seq<Digest>, pos: nat)
    requires pos < (|level| + 1) / 2
    ensures Above(H, level)[pos]
              == H(level[2 * pos], if 2 * pos + 1 < |level| then level[2 * pos + 1] else level[2 * pos])
  {
  }

  lemma {:induction false} RootAbove(H: Combine, vTxid: seq<Digest>, height: nat)
    requires vTxid != [] && height <= Height(|vTxid|)
    ensures RootOf(H, Level(H, vTxid, height)) == RootOf(H, vTxid)
  {
    if height > 0 {
      RootAbove(H, vTxid, height - 1);
      LevelIsHash(H, vTxid, height - 1);
    }
  }

  /** The recursive hash at the top is the root that the flat array ends with. */
  lemma {:induction false} HashIsRoot(H: Combine, vTxid: seq<Digest>)
    requires vTxid != []
    ensures CalcTreeWidth(|vTxid|, Height(|vTxid|)) == 1
    ensures CalcHash(H, vTxid, Height(|vTxid|), 0) == RootOf(H, vTxid)
  {
    RootThere(|vTxid|);
    RootAbove(H, vTxid, Height(|vTxid|));
    LevelIsHash(H, vTxid, Height(|vTxid|));
  }

  // ---- branches ----

  /** `i` with its last bit flipped. */
  function Flip(i: nat): nat {
    if i % 2 == 0 then i + 1 else i - 1
  }

  function Sibling(level: seq<Digest>, i: nat): Digest
    requires i < |level|
  {
    level[if Flip(i) < |level| then Flip(i) else |level| - 1]
  }

  /** What is needed to get from entry `i` of a level to the root. */
  function Branch(H: Combine, level: seq<Digest>, i: nat): seq<Digest>
    requires i < |level|
    decreases |level|
  {
    if |level| <= 1 then [] else [Sibling(level, i)] + Branch(H, Above(H, level), i / 2)
  }

  function Step(H: Combine, hash: Digest, otherside: Digest, nIndex: int): Digest {
    if nIndex % 2 == 1 then H(otherside, hash) else H(hash, otherside)
  }

  /** Climbing a branch. */
  function Climb(H: Combine, hash: Digest, branch: seq<Digest>, nIndex: int): Digest
    decreases |branch|
  {
    if branch == [] then hash else Climb(H, Step(H, hash, branch[0], nIndex), branch[1..], nIndex / 2)
  }

  /** One step of the branch leads to the entry above. */
  lemma StepAbove(H: Combine, level: seq<Digest>, i: nat)
    requires i < |level| && |level| > 1
    ensures i / 2 < |Above(H, level)|
    ensures Step(H, level[i], Sibling(level, i), i) == Above(H, level)[i / 2]
  {
    assert i == 2 * (i / 2) + i % 2;
  }

  /** Climbing the branch of any entry leads to the root. */
  lemma {:induction false} BranchLeadsToRoot(H: Combine, level: seq<Digest>, i: nat)
    requires i < |level|
    ensures Climb(H, level[i], Branch(H, level, i), i) == RootOf(H, level)
    decreases |level|
  {
    if |level| > 1 {
      StepAbove(H, level, i);
      BranchLeadsToRoot(H, Above(H, level), i / 2);
    }
  }

  datatype Pair = Pair(left: Digest, right: Digest)

  /** Two different pairs with the same hash. */
  predicate Collide(H: Combine, p: Pair, q: Pair) {
    p != q && H(p.left, p.right) == H(q.left, q.right)
  }

  ghost predicate Injective(H: Combine) {
    forall p, q :: !Collide(H, p, q)
  }

  /** The pair that a step combines. */
  function Combined(hash: Digest, otherside: Digest, nIndex: int): Pair {
    if nIndex % 2 == 1 then Pair(otherside, hash) else Pair(hash, otherside)
  }

  /** Where a wrong branch that leads to the right root last differs from the right one: two pairs with one hash. */
  function BranchCollision(H: Combine, level: seq<Digest>, i: nat, hash: Digest, branch: seq<Digest>): (Pair, Pair)
    requires i < |level| && |branch| == |Branch(H, level, i)|
    decreases |level|
  {
    if |level| == 1 then (Pair(ZERO, ZERO), Pair(ZERO, ZERO))
    else
      var p, q := Combined(hash, branch[0], i), Combined(level[i], Sibling(level, i), i);
      if p != q && H(p.left, p.right) == H(q.left, q.right) then (p, q)
      else BranchCollision(H, Above(H, level), i / 2, H(p.left, p.right), branch[1..])
  }

  /** Whoever gets to the root from another digest, or by another branch of the right length, has found two pairs of
      digests with the same hash. */
  lemma {:induction false} BranchSound(H: Combine, level: seq<Digest>, i: nat, hash: Digest, branch: seq<Digest>)
    requires i < |level| && |branch| == |Branch(H, level, i)|
    requires Climb(H, hash, branch, i) == RootOf(H, level)
    ensures (hash == level[i] && branch == Branch(H, level, i))
         || Collide(H, BranchCollision(H, level, i, hash, branch).0, BranchCollision(H, level, i, hash, branch).1)
    decreases |level|
  {
    if |level| > 1 {
      var up, at := Above(H, level), i / 2;
      var p, q := Combined(hash, branch[0], i), Combined(level[i], Sibling(level, i), i);
      StepAbove(H, level, i);
      BranchSound(H, up, at, H(p.left, p.right), branch[1..]);
      if p == q && branch[1..] == Branch(H, up, at) {
        assert branch == [branch[0]] + branch[1..];
      }
      hide Climb, RootOf, Above, Sibling;
    }
  }

  /** Once the levels `below` are written, `level` and those above it are what is missing. */
  ghost predicate Frontier(H: Combine, leaves: seq<Digest>, below: seq<Digest>, level: seq<Digest>) {
    below + Flat(H, level) == Flat(H, leaves)
  }

  lemma FrontierUp(H: Combine, leaves: seq<Digest>, below: seq<Digest>, level: seq<Digest>)
    requires |level| > 1 && Frontier(H, leaves, below, level)
    ensures Frontier(H, leaves, below + level, Above(H, level))
  {
    hide Above;
    Associative(below, level, Flat(H, Above(H, level)));
  }

  lemma {:induction false} FrontierEnds(H: Combine, leaves: seq<Digest>, below: seq<Digest>, level: seq<Digest>)
    requires |level| <= 1 && Frontier(H, leaves, below, level)
    ensures below + level == Flat(H, leaves)
    ensures leaves == [] <==> Flat(H, leaves) == []
    ensures leaves == [] ==> RootOf(H, leaves) == ZERO
    ensures leaves != [] ==> Flat(H, leaves)[|Flat(H, leaves)| - 1] == RootOf(H, leaves)
  {
    FlatEndsWithRoot(H, leaves);
  }

  lemma {:induction false} FrontierAt(H: Combine, leaves: seq<Digest>, below: seq<Digest>, level: seq<Digest>, i: nat)
    requires i < |level| && Frontier(H, leaves, below, level)
    ensures |below| + i < |Flat(H, leaves)| && Flat(H, leaves)[|below| + i] == level[i]
  {
    FlatEndsWithRoot(H, level);
  }

  lemma AtLeaves(H: Combine, leaves: seq<Digest>, i: nat)
    requires i < |leaves|
    ensures Frontier(H, leaves, [], leaves) && Climbing(H, leaves, i, [], leaves, i)
  {
  }

  /** A branch found so far, and what is missing of it. */
  ghost predicate Climbing(H: Combine, leaves: seq<Digest>, i: nat, found: seq<Digest>, level: seq<Digest>, at: nat)
    requires i < |leaves| && at < |level|
  {
    found + Branch(H, level, at) == Branch(H, leaves, i)
  }

  lemma ClimbUp(H: Combine, leaves: seq<Digest>, i: nat, found: seq<Digest>, level: seq<Digest>, at: nat)
    requires i < |leaves| && at < |level| && |level| > 1 && Climbing(H, leaves, i, found, level, at)
    ensures Climbing(H, leaves, i, found + [Sibling(level, at)], Above(H, level), at / 2)
  {
    hide Above;
    Associative(found, [Sibling(level, at)], Branch(H, Above(H, level), at / 2));
  }

  lemma Associative(a: seq<Digest>, b: seq<Digest>, c: seq<Digest>)
    ensures (a + b) + c == a + (b + c)
  {
  }

  // ---- the block's own methods ----

  function Min(a: int, b: int): int {
    if a < b then a else b
  }

  /** A block, as far as its tree is concerned: the digests of its transactions and the tree once it is built. */
  class CBlock {
    const H: Combine
    const vtx: seq<Digest>
    var vMerkleTree: seq<Digest>

    constructor (H: Combine, vtx: seq<Digest>)
      ensures this.H == H && this.vtx == vtx && vMerkleTree == []
    {
      this.H, this.vtx, vMerkleTree := H, vtx, [];
    }

    method BuildMerkleTree() returns (root: Digest)
      modifies this
      ensures vMerkleTree == Flat(H, vtx) && root == RootOf(H, vtx)
    {
      hide Above, Flat, RootOf;
      vMerkleTree := [];
      var t := 0;
      while t < |vtx|
        invariant t <= |vtx| && vMerkleTree == vtx[..t]
      {
        vMerkleTree := vMerkleTree + [vtx[t]];
        t := t + 1;
      }
      var j, nSize := 0, |vtx|;
      ghost var below, level := [], vtx;
      while nSize > 1
        invariant nSize == |level| && j == |below| && vMerkleTree == below + level
        invariant Frontier(H, vtx, below, level)
        decreases nSize
      {
        AppendAbove(j, nSize, below, level);
        FrontierUp(H, vtx, below, level);
        j := j + nSize;
        below, level := below + level, Above(H, level);
        nSize := (nSize + 1) / 2;
      }
      FrontierEnds(H, vtx, below, level);
      root := if vMerkleTree == [] then 0 else vMerkleTree[|vMerkleTree| - 1];
    }

    /** Combines the level that stands at the end of the array. */
    method AppendAbove(j: nat, nSize: nat, ghost below: seq<Digest>, ghost level: seq<Digest>)
      requires j == |below| && nSize == |level| > 1 && vMerkleTree == below + level
      modifies this
      ensures vMerkleTree == (below + level) + Above(H, level)
    {
      ghost var tree := vMerkleTree;
      var i := 0;
      while i < nSize
        invariant i % 2 == 0 && 0 <= i <= nSize + 1
        invariant vMerkleTree == tree + Above(H, level)[..i / 2]
      {
        var i2 := Min(i + 1, nSize - 1);
        assert vMerkleTree[j + i] == level[i] && vMerkleTree[j + i2] == level[i2];
        AboveAt(H, level, i / 2);
        assert Above(H, level)[..i / 2 + 1] == Above(H, level)[..i / 2] + [Above(H, level)[i / 2]];
        vMerkleTree := vMerkleTree + [H(vMerkleTree[j + i], vMerkleTree[j + i2])];
        i := i + 2;
      }
      assert Above(H, level)[..i / 2] == Above(H, level);
    }

    method GetMerkleBranch(nIndex: nat) returns (vMerkleBranch: seq<Digest>)
      requires nIndex < |vtx| && (vMerkleTree == [] || vMerkleTree == Flat(H, vtx))
      modifies this
      ensures vMerkleTree == Flat(H, vtx) && vMerkleBranch == Branch(H, vtx, nIndex)
    {
      hide Above, Flat;
      if vMerkleTree == [] {
        var _ := BuildMerkleTree();
      }
      AtLeaves(H, vtx, nIndex);
      vMerkleBranch := [];
      var j, nSize, nAt := 0, |vtx|, nIndex;
      ghost var below, level := [], vtx;
      while nSize > 1
        invariant nSize == |level| && 0 <= nAt < nSize && j == |below| && vMerkleTree == Flat(H, vtx)
        invariant Frontier(H, vtx, below, level) && Climbing(H, vtx, nIndex, vMerkleBranch, level, nAt)
        decreases nSize
      {
        var i := Min(Flip(nAt), nSize - 1);
        FrontierAt(H, vtx, below, level, i);
        assert vMerkleTree[j + i] == Sibling(level, nAt);
        FrontierUp(H, vtx, below, level);
        ClimbUp(H, vtx, nIndex, vMerkleBranch, level, nAt);
        vMerkleBranch := vMerkleBranch + [vMerkleTree[j + i]];
        nAt := nAt / 2;
        j := j + nSize;
        below, level := below + level, Above(H, level);
        nSize := (nSize + 1) / 2;
      }
    }
  }

  /** Climbs a branch; no root for index -1. */
  method CheckMerkleBranch(H: Combine, hash: Digest, vMerkleBranch: seq<Digest>, nIndex: int) returns (root: Digest)
    ensures root == if nIndex == -1 then ZERO else Climb(H, hash, vMerkleBranch, nIndex)
  {
    if nIndex == -1 {
      return 0;
    }
    root := hash;
    var at, k := nIndex, 0;
    while k < |vMerkleBranch|
      invariant k <= |vMerkleBranch| && Climb(H, root, vMerkleBranch[k..], at) == Climb(H, hash, vMerkleBranch, nIndex)
    {
      root := if at % 2 == 1 then H(vMerkleBranch[k], root) else H(root, vMerkleBranch[k]);
      at := at / 2;
      assert vMerkleBranch[k..][1..] == vMerkleBranch[k + 1..];
      k := k + 1;
    }
  }

  /** The three ways to the root agree: the last entry of the flat array, the recursive hash, and the branch of any
      transaction. */
  lemma OneRoot(H: Combine, vTxid: seq<Digest>, i: nat)
    requires i < |vTxid|
    ensures CalcTreeWidth(|vTxid|, Height(|vTxid|)) == 1
    ensures Flat(H, vTxid)[|Flat(H, vTxid)| - 1] == CalcHash(H, vTxid, Height(|vTxid|), 0)
         == Climb(H, vTxid[i], Branch(H, vTxid, i), i)
    ensures |Branch(H, vTxid, i)| == Height(|vTxid|)
  {
    FlatEndsWithRoot(H, vTxid);
    HashIsRoot(H, vTxid);
    BranchLeadsToRoot(H, vTxid, i);
    WidthOfLeaves(|vTxid|);
    BranchLength(H, vTxid, 0, vTxid, i);
  }

  lemma {:induction false} BranchLength(H: Combine, vTxid: seq<Digest>, height: nat, level: seq<Digest>, i: nat)
    requires i < |level| == CalcTreeWidth(|vTxid|, height)
    ensures |Branch(H, level, i)| == HeightFrom(|vTxid|, height) - height
    decreases |level|
  {
    if |level| > 1 {
      WidthHalves(|vTxid|, height);
      BranchLength(H, vTxid, height + 1, Above(H, level), i / 2);
    }
  }

  /** The roots of the smallest blocks. */
  lemma SmallRoots(H: Combine, a: Digest, b: Digest, c: Digest)
    ensures RootOf(H, [a]) == a && RootOf(H, [a, b]) == H(a, b)
    ensures RootOf(H, [a, b, c]) == H(H(a, b), H(c, c))
    ensures Branch(H, [a, b, c], 2) == [c, H(a, b)]
  {
    assert Above(H, [a, b]) == [H(a, b)] && RootOf(H, [H(a, b)]) == H(a, b);
    var above := [H(a, b), H(c, c)];
    assert Above(H, [a, b, c]) == above;
    assert Above(H, above) == [H(H(a, b), H(c, c))] && RootOf(H, [H(H(a, b), H(c, c))]) == H(H(a, b), H(c, c));
    assert RootOf(H, above) == H(H(a, b), H(c, c));
    assert Sibling([a, b, c], 2) == c && Sibling(above, 1) == H(a, b);
    assert Branch(H, above, 1) == [H(a, b)] + Branch(H, Above(H, above), 0);
    assert Branch(H, [a, b, c], 2) == [c] + Branch(H, above, 1);
  }
}

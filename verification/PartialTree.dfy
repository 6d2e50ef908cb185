/** Partial merkle trees: proofs that some transactions are in a block. */
module PartialTree {
  import opened Powers
  import opened Bits
  import opened Merkle

  const MAX_BLOCK_SIZE: nat := 1_000_000

  // ---- which leaves stand under a node ----

  function Lo(height: nat, pos: nat): nat {
    Shl(pos, height)
  }

  function Hi(n: nat, height: nat, pos: nat): nat {
    Min(Shl(pos + 1, height), n)
  }

  lemma Halves(n: nat, height: nat, pos: nat)
    requires height > 0 && pos < CalcTreeWidth(n, height)
    ensures 2 * pos < CalcTreeWidth(n, height - 1) && Lo(height - 1, 2 * pos) == Lo(height, pos)
    ensures if 2 * pos + 1 < CalcTreeWidth(n, height - 1)
            then Hi(n, height - 1, 2 * pos) == Lo(height - 1, 2 * pos + 1)
              && Hi(n, height - 1, 2 * pos + 1) == Hi(n, height, pos)
            else Hi(n, height - 1, 2 * pos) == Hi(n, height, pos) == n
  {
    hide CalcTreeWidth;
    WidthHalves(n, height - 1);
    NodeThere(n, height - 1, 2 * pos + 1);
    ShlSum(pos, pos, height - 1);
    ShlSum(pos + 1, pos + 1, height - 1);
    ShlMono(2 * pos + 1, 2 * (pos + 1), height - 1);
  }

  lemma SomeLeaf(n: nat, height: nat, pos: nat)
    requires pos < CalcTreeWidth(n, height)
    ensures Lo(height, pos) < Hi(n, height, pos) <= n
    ensures height == 0 ==> Lo(height, pos) == pos && Hi(n, height, pos) == pos + 1
  {
    hide CalcTreeWidth;
    NodeThere(n, height, pos);
    ShlMono(pos, pos + 1, height);
  }

  lemma WholeTree(n: nat)
    requires n >= 1
    ensures CalcTreeWidth(n, Height(n)) == 1 && Lo(Height(n), 0) == 0 && Hi(n, Height(n), 0) == n
  {
    RootThere(n);
    ShlSum(0, 0, Height(n));
    NodeThere(n, Height(n), 1);
  }

  /** No size or position in the tree of a block comes near the limits of a 32-bit word. */
  lemma NoWrap(n: nat, height: nat, pos: nat)
    requires n <= MAX_BLOCK_SIZE / 60 && height <= Height(n) && pos < CalcTreeWidth(n, height)
    ensures height <= 15 && n + Shl(1, height) - 1 < 0x1_0000 && Shl(pos + 1, height) <= 0x1_0000
  {
    hide Shl, CalcTreeWidth;
    FewBits(1);
    NodeThere(n, 15, 1);
    ShlGrows(1, height, 15);
    NodeThere(n, height, pos);
    ShlSum(pos, 1, height);
  }

  // ---- building ----

  predicate AnyMatch(vMatch: seq<bool>, lo: nat, hi: nat)
    requires hi <= |vMatch|
  {
    exists p :: lo <= p < hi && vMatch[p]
  }

  /** The flag bits and hashes of a subtree, depth first. */
  datatype Tree = Tree(bits: seq<bool>, hashes: seq<Digest>)

  function Build(H: Combine, vTxid: seq<Digest>, vMatch: seq<bool>, height: nat, pos: nat): Tree
    requires |vTxid| <= |vMatch| && pos < CalcTreeWidth(|vTxid|, height)
    decreases height
  {
    var n := |vTxid|;
    SomeLeaf(n, height, pos);
    var parent := AnyMatch(vMatch, Lo(height, pos), Hi(n, height, pos));
    if height == 0 || !parent then Tree([parent], [CalcHash(H, vTxid, height, pos)])
    else
      Halves(n, height, pos);
      var left := Build(H, vTxid, vMatch, height - 1, 2 * pos);
      if 2 * pos + 1 < CalcTreeWidth(n, height - 1) then
        var right := Build(H, vTxid, vMatch, height - 1, 2 * pos + 1);
        Tree([true] + left.bits + right.bits, left.hashes + right.hashes)
      else
        Tree([true] + left.bits, left.hashes)
  }

  /** The matched transactions among `lo .. hi`, in order. */
  function Matched(vTxid: seq<Digest>, vMatch: seq<bool>, lo: nat, hi: nat): seq<Digest>
    requires hi <= |vTxid| <= |vMatch|
  {
    if lo >= hi then [] else Matched(vTxid, vMatch, lo, hi - 1) + if vMatch[hi - 1] then [vTxid[hi - 1]] else []
  }

  lemma {:induction false} MatchedJoins(vTxid: seq<Digest>, vMatch: seq<bool>, lo: nat, mid: nat, hi: nat)
    requires lo <= mid <= hi <= |vTxid| <= |vMatch|
    ensures Matched(vTxid, vMatch, lo, hi) == Matched(vTxid, vMatch, lo, mid) + Matched(vTxid, vMatch, mid, hi)
  {
    if mid < hi {
      MatchedJoins(vTxid, vMatch, lo, mid, hi - 1);
    }
  }

  lemma {:induction false} NoneMatched(vTxid: seq<Digest>, vMatch: seq<bool>, lo: nat, hi: nat)
    requires hi <= |vTxid| <= |vMatch|
    ensures Matched(vTxid, vMatch, lo, hi) == [] <==> !AnyMatch(vMatch, lo, hi)
  {
    if lo < hi {
      NoneMatched(vTxid, vMatch, lo, hi - 1);
      assert vMatch[hi - 1] ==> AnyMatch(vMatch, lo, hi);
    }
  }

  lemma OneLeaf(vMatch: seq<bool>, pos: nat)
    requires pos < |vMatch|
    ensures AnyMatch(vMatch, pos, pos + 1) == vMatch[pos]
  {
  }

  // ---- extracting ----

  datatype Extracted = Failed | Extracted(hash: Digest, nBitsUsed: nat, nHashUsed: nat, matched: seq<Digest>)

  /** Reads a subtree from bit `b` and hash `k` on. */
  function Extract(H: Combine, n: nat, vBits: seq<bool>, vHash: seq<Digest>, height: nat, pos: nat, b: nat,
                   k: nat): (e: Extracted)
    requires pos < CalcTreeWidth(n, height) && b <= |vBits| && k <= |vHash|
    ensures e.Extracted? ==> b < e.nBitsUsed <= |vBits| && k < e.nHashUsed <= |vHash|
    decreases height
  {
    if b == |vBits| then Failed
    else if height == 0 || !vBits[b] then
      if k == |vHash| then Failed
      else Extracted(vHash[k], b + 1, k + 1, if height == 0 && vBits[b] then [vHash[k]] else [])
    else
      Halves(n, height, pos);
      var left := Extract(H, n, vBits, vHash, height - 1, 2 * pos, b + 1, k);
      if left.Failed? then Failed
      else if 2 * pos + 1 < CalcTreeWidth(n, height - 1) then
        var right := Extract(H, n, vBits, vHash, height - 1, 2 * pos + 1, left.nBitsUsed, left.nHashUsed);
        if right.Failed? then Failed
        else Extracted(H(left.hash, right.hash), right.nBitsUsed, right.nHashUsed, left.matched + right.matched)
      else left.(hash := H(left.hash, left.hash))
  }

  /** What a partial tree shows, if it is acceptable. */
  function Accept(H: Combine, n: nat, vBits: seq<bool>, vHash: seq<Digest>): (e: Extracted) {
    if n == 0 || n > MAX_BLOCK_SIZE / 60 || |vHash| > n || |vBits| < |vHash| then Failed
    else
      RootThere(n);
      var e := Extract(H, n, vBits, vHash, Height(n), 0, 0, 0);
      if e.Failed? || (e.nBitsUsed + 7) / 8 != (|vBits| + 7) / 8 || e.nHashUsed != |vHash| then Failed else e
  }

  /** The root that is reported; zero tells of failure. */
  function Reported(e: Extracted): Digest {
    if e.Failed? then ZERO else e.hash
  }

  // ---- what is built can be extracted ----

  /** `part` stands in `whole` from `at` on. */
  predicate StandsAt<T(==)>(part: seq<T>, whole: seq<T>, at: nat) {
    at + |part| <= |whole| && whole[at..at + |part|] == part
  }

  lemma StandsSplit<T>(a: seq<T>, b: seq<T>, whole: seq<T>, at: nat)
    requires StandsAt(a + b, whole, at)
    ensures StandsAt(a, whole, at) && StandsAt(b, whole, at + |a|)
  {
    var s := whole[at..at + |a + b|];
    assert s[..|a|] == a && s[|a|..] == b;
  }

  lemma StandsWhole<T>(s: seq<T>)
    ensures StandsAt(s, s, 0)
  {
  }

  lemma StandsInside<T>(part: seq<T>, whole: seq<T>, at: nat)
    requires StandsAt(part, whole, at)
    ensures at + |part| <= |whole| && (part != [] ==> whole[at] == part[0])
  {
  }

  /** The subtree of a node as it is built, read back. */
  function Whole(H: Combine, vTxid: seq<Digest>, vMatch: seq<bool>, height: nat, pos: nat, b: nat, k: nat): Extracted
    requires |vTxid| <= |vMatch| && pos < CalcTreeWidth(|vTxid|, height)
  {
    var t := Build(H, vTxid, vMatch, height, pos);
    SomeLeaf(|vTxid|, height, pos);
    Extracted(CalcHash(H, vTxid, height, pos), b + |t.bits|, k + |t.hashes|,
              Matched(vTxid, vMatch, Lo(height, pos), Hi(|vTxid|, height, pos)))
  }

  lemma {:induction false} ExtractUndoesBuild(H: Combine, vTxid: seq<Digest>, vMatch: seq<bool>, height: nat, pos: nat,
                                              vBits: seq<bool>, vHash: seq<Digest>, b: nat, k: nat)
    requires |vTxid| <= |vMatch| && pos < CalcTreeWidth(|vTxid|, height)
    requires StandsAt(Build(H, vTxid, vMatch, height, pos).bits, vBits, b)
    requires StandsAt(Build(H, vTxid, vMatch, height, pos).hashes, vHash, k)
    ensures Extract(H, |vTxid|, vBits, vHash, height, pos, b, k) == Whole(H, vTxid, vMatch, height, pos, b, k)
    decreases height
  {
    hide CalcTreeWidth, Lo, Hi, AnyMatch, Matched, StandsAt, CalcHash, Extract;
    var n := |vTxid|;
    SomeLeaf(n, height, pos);
    if height == 0 || !AnyMatch(vMatch, Lo(height, pos), Hi(n, height, pos)) {
      ExtractStored(H, vTxid, vMatch, height, pos, vBits, vHash, b, k);
    } else {
      Halves(n, height, pos);
      ChildrenStand(H, vTxid, vMatch, height, pos, vBits, vHash, b, k);
      var left := Build(H, vTxid, vMatch, height - 1, 2 * pos);
      ExtractUndoesBuild(H, vTxid, vMatch, height - 1, 2 * pos, vBits, vHash, b + 1, k);
      if 2 * pos + 1 < CalcTreeWidth(n, height - 1) {
        ExtractUndoesBuild(H, vTxid, vMatch, height - 1, 2 * pos + 1, vBits, vHash, b + 1 + |left.bits|,
                           k + |left.hashes|);
      }
      ExtractInner(H, vTxid, vMatch, height, pos, vBits, vHash, b, k);
    }
  }

  lemma ChildrenStand(H: Combine, vTxid: seq<Digest>, vMatch: seq<bool>, height: nat, pos: nat,
                      vBits: seq<bool>, vHash: seq<Digest>, b: nat, k: nat)
    requires |vTxid| <= |vMatch| && pos < CalcTreeWidth(|vTxid|, height) && Hi(|vTxid|, height, pos) <= |vTxid|
    requires height > 0 && AnyMatch(vMatch, Lo(height, pos), Hi(|vTxid|, height, pos))
    requires 2 * pos < CalcTreeWidth(|vTxid|, height - 1)
    requires StandsAt(Build(H, vTxid, vMatch, height, pos).bits, vBits, b)
    requires StandsAt(Build(H, vTxid, vMatch, height, pos).hashes, vHash, k)
    ensures b < |vBits| && vBits[b] && k <= |vHash|
    ensures var left := Build(H, vTxid, vMatch, height - 1, 2 * pos);
            && StandsAt(left.bits, vBits, b + 1) && StandsAt(left.hashes, vHash, k)
            && (2 * pos + 1 < CalcTreeWidth(|vTxid|, height - 1) ==>
                  var right := Build(H, vTxid, vMatch, height - 1, 2 * pos + 1);
                  StandsAt(right.bits, vBits, b + 1 + |left.bits|) && StandsAt(right.hashes, vHash, k + |left.hashes|))
  {
    hide CalcTreeWidth, Lo, Hi, AnyMatch, StandsAt, CalcHash;
    StandsInside(Build(H, vTxid, vMatch, height, pos).bits, vBits, b);
    StandsInside(Build(H, vTxid, vMatch, height, pos).hashes, vHash, k);
    var left := Build(H, vTxid, vMatch, height - 1, 2 * pos);
    if 2 * pos + 1 < CalcTreeWidth(|vTxid|, height - 1) {
      var right := Build(H, vTxid, vMatch, height - 1, 2 * pos + 1);
      StandsSplit([true] + left.bits, right.bits, vBits, b);
      StandsSplit(left.hashes, right.hashes, vHash, k);
    }
    StandsSplit([true], left.bits, vBits, b);
  }

  lemma {:induction false} ExtractStored(H: Combine, vTxid: seq<Digest>, vMatch: seq<bool>, height: nat, pos: nat,
                                         vBits: seq<bool>, vHash: seq<Digest>, b: nat, k: nat)
    requires |vTxid| <= |vMatch| && pos < CalcTreeWidth(|vTxid|, height) && Hi(|vTxid|, height, pos) <= |vTxid|
    requires height == 0 || !AnyMatch(vMatch, Lo(height, pos), Hi(|vTxid|, height, pos))
    requires StandsAt(Build(H, vTxid, vMatch, height, pos).bits, vBits, b)
    requires StandsAt(Build(H, vTxid, vMatch, height, pos).hashes, vHash, k)
    ensures Extract(H, |vTxid|, vBits, vHash, height, pos, b, k) == Whole(H, vTxid, vMatch, height, pos, b, k)
  {
    hide CalcTreeWidth, Lo, Hi, AnyMatch;
    var t, lo, hi := Build(H, vTxid, vMatch, height, pos), Lo(height, pos), Hi(|vTxid|, height, pos);
    SomeLeaf(|vTxid|, height, pos);
    NoneMatched(vTxid, vMatch, lo, hi);
    assert t.bits[0] == vBits[b] && t.hashes[0] == vHash[k];
    if height == 0 {
      OneLeaf(vMatch, pos);
      assert Matched(vTxid, vMatch, pos, pos) == [];
      WidthOfLeaves(|vTxid|);
      assert Matched(vTxid, vMatch, pos, pos + 1) == if vMatch[pos] then [vTxid[pos]] else [];
      assert CalcHash(H, vTxid, 0, pos) == vTxid[pos];
    }
  }

  lemma ExtractInner(H: Combine, vTxid: seq<Digest>, vMatch: seq<bool>, height: nat, pos: nat,
                     vBits: seq<bool>, vHash: seq<Digest>, b: nat, k: nat)
    requires |vTxid| <= |vMatch| && pos < CalcTreeWidth(|vTxid|, height) && Hi(|vTxid|, height, pos) <= |vTxid|
    requires height > 0 && AnyMatch(vMatch, Lo(height, pos), Hi(|vTxid|, height, pos))
    requires b < |vBits| && vBits[b] && k <= |vHash| && 2 * pos < CalcTreeWidth(|vTxid|, height - 1)
    requires var left := Whole(H, vTxid, vMatch, height - 1, 2 * pos, b + 1, k);
             && Extract(H, |vTxid|, vBits, vHash, height - 1, 2 * pos, b + 1, k) == left
             && (2 * pos + 1 < CalcTreeWidth(|vTxid|, height - 1) ==>
                   Extract(H, |vTxid|, vBits, vHash, height - 1, 2 * pos + 1, left.nBitsUsed, left.nHashUsed)
                   == Whole(H, vTxid, vMatch, height - 1, 2 * pos + 1, left.nBitsUsed, left.nHashUsed))
    ensures Extract(H, |vTxid|, vBits, vHash, height, pos, b, k) == Whole(H, vTxid, vMatch, height, pos, b, k)
  {
    hide CalcTreeWidth, Lo, Hi, AnyMatch, Matched;
    var n := |vTxid|;
    Halves(n, height, pos);
    if 2 * pos + 1 < CalcTreeWidth(n, height - 1) {
      SomeLeaf(n, height - 1, 2 * pos);
      SomeLeaf(n, height - 1, 2 * pos + 1);
      MatchedJoins(vTxid, vMatch, Lo(height, pos), Hi(n, height - 1, 2 * pos), Hi(n, height, pos));
    }
  }

  // ---- how much is built ----

  /** How many nodes below this one, itself included, are descended into and have a single child. */
  function Lone(n: nat, vMatch: seq<bool>, height: nat, pos: nat): nat
    requires n <= |vMatch| && pos < CalcTreeWidth(n, height)
    decreases height
  {
    SomeLeaf(n, height, pos);
    if height == 0 || !AnyMatch(vMatch, Lo(height, pos), Hi(n, height, pos)) then 0
    else
      Halves(n, height, pos);
      if 2 * pos + 1 < CalcTreeWidth(n, height - 1)
      then Lone(n, vMatch, height - 1, 2 * pos) + Lone(n, vMatch, height - 1, 2 * pos + 1)
      else 1 + Lone(n, vMatch, height - 1, 2 * pos)
  }

  /** There is one hash per transaction at most, and twice as many bits, less one, but for single children. */
  lemma {:induction false} Sizes(H: Combine, vTxid: seq<Digest>, vMatch: seq<bool>, height: nat, pos: nat)
    requires |vTxid| <= |vMatch| && pos < CalcTreeWidth(|vTxid|, height)
    ensures var t := Build(H, vTxid, vMatch, height, pos);
            && 1 <= |t.hashes| <= Hi(|vTxid|, height, pos) - Lo(height, pos)
            && |t.bits| + 1 == 2 * |t.hashes| + Lone(|vTxid|, vMatch, height, pos)
    decreases height
  {
    hide CalcTreeWidth, Lo, Hi, AnyMatch, CalcHash;
    SomeLeaf(|vTxid|, height, pos);
    if height > 0 {
      Halves(|vTxid|, height, pos);
      Sizes(H, vTxid, vMatch, height - 1, 2 * pos);
      if 2 * pos + 1 < CalcTreeWidth(|vTxid|, height - 1) {
        Sizes(H, vTxid, vMatch, height - 1, 2 * pos + 1);
      }
    }
  }

  /** Every match brings at most one hash per level. */
  lemma {:induction false} HashesPerMatch(H: Combine, vTxid: seq<Digest>, vMatch: seq<bool>, height: nat, pos: nat)
    requires |vTxid| <= |vMatch| && pos < CalcTreeWidth(|vTxid|, height)
    ensures Lo(height, pos) < Hi(|vTxid|, height, pos) <= |vTxid|
    ensures |Build(H, vTxid, vMatch, height, pos).hashes|
         <= 1 + |Matched(vTxid, vMatch, Lo(height, pos), Hi(|vTxid|, height, pos))| * height
    decreases height
  {
    hide CalcTreeWidth, Lo, Hi, AnyMatch, CalcHash, Matched;
    var n := |vTxid|;
    var lo, hi := Lo(height, pos), Hi(n, height, pos);
    SomeLeaf(n, height, pos);
    if height > 0 && AnyMatch(vMatch, lo, hi) {
      Halves(n, height, pos);
      HashesPerMatch(H, vTxid, vMatch, height - 1, 2 * pos);
      NoneMatched(vTxid, vMatch, lo, hi);
      var mid := Hi(n, height - 1, 2 * pos);
      var a := |Matched(vTxid, vMatch, lo, mid)|;
      if 2 * pos + 1 < CalcTreeWidth(n, height - 1) {
        HashesPerMatch(H, vTxid, vMatch, height - 1, 2 * pos + 1);
        MatchedJoins(vTxid, vMatch, lo, mid, hi);
        OneLevelMore(a, |Matched(vTxid, vMatch, mid, hi)|, height);
      } else {
        OneLevelMore(a, 0, height);
      }
    }
  }

  lemma OneLevelMore(a: nat, c: nat, height: nat)
    requires height > 0
    ensures a * (height - 1) + c * (height - 1) + (a + c) == (a + c) * height
  {
  }

  /** Single children occur on the right edge of the tree only. */
  lemma {:induction false} LoneOnEdge(n: nat, vMatch: seq<bool>, height: nat, pos: nat)
    requires n <= |vMatch| && pos < CalcTreeWidth(n, height)
    ensures Lone(n, vMatch, height, pos) <= height
    ensures pos + 1 < CalcTreeWidth(n, height) ==> Lone(n, vMatch, height, pos) == 0
    decreases height
  {
    hide CalcTreeWidth;
    if height > 0 {
      Halves(n, height, pos);
      WidthHalves(n, height - 1);
      LoneOnEdge(n, vMatch, height - 1, 2 * pos);
      if 2 * pos + 1 < CalcTreeWidth(n, height - 1) {
        LoneOnEdge(n, vMatch, height - 1, 2 * pos + 1);
      }
    }
  }

  /** No match below a node with a single child: where a level has an odd number of nodes, none of the leaves under the
      last one is matched. */
  ghost predicate NoLoneMatch(n: nat, vMatch: seq<bool>, height: nat)
    requires n <= |vMatch|
  {
    forall g, p :: 0 <= g < height && CalcTreeWidth(n, g) % 2 == 1 && Lo(g, CalcTreeWidth(n, g) - 1) <= p < n
      ==> !vMatch[p]
  }

  lemma {:induction false} LoneFree(n: nat, vMatch: seq<bool>, height: nat)
    requires 1 <= n <= |vMatch| && CalcTreeWidth(n, height) >= 1
    ensures Lone(n, vMatch, height, CalcTreeWidth(n, height) - 1) == 0 <==> NoLoneMatch(n, vMatch, height)
  {
    hide CalcTreeWidth, Lo, Hi;
    StillThere(n, height);
    if height > 0 {
      var last, w := CalcTreeWidth(n, height) - 1, CalcTreeWidth(n, height - 1);
      StillThere(n, height - 1);
      WidthHalves(n, height - 1);
      Halves(n, height, last);
      LoneFree(n, vMatch, height - 1);
      LastReachesEnd(n, height);
      if w % 2 == 0 {
        LoneOnEdge(n, vMatch, height - 1, 2 * last);
      }
      forall g | 0 <= g < height
        ensures CalcTreeWidth(n, g) >= 1 && Lo(g, CalcTreeWidth(n, g) - 1) >= Lo(height, last)
      {
        LastInside(n, g, height);
      }
      if w % 2 == 1 && AnyMatch(vMatch, Lo(height, last), n) {
        var p :| Lo(height, last) <= p < n && vMatch[p];
        assert w - 1 == 2 * last && Lo(height - 1, w - 1) <= p;
      }
    }
  }

  lemma LastReachesEnd(n: nat, height: nat)
    requires n >= 1
    ensures CalcTreeWidth(n, height) >= 1 && Hi(n, height, CalcTreeWidth(n, height) - 1) == n
  {
    StillThere(n, height);
    NodeThere(n, height, CalcTreeWidth(n, height));
  }

  lemma {:induction false} LastInside(n: nat, g: nat, height: nat)
    requires n >= 1 && g <= height
    ensures CalcTreeWidth(n, g) >= 1 && CalcTreeWidth(n, height) >= 1
    ensures Lo(g, CalcTreeWidth(n, g) - 1) >= Lo(height, CalcTreeWidth(n, height) - 1)
    decreases height
  {
    hide CalcTreeWidth;
    StillThere(n, g);
    StillThere(n, height);
    if g < height {
      LastInside(n, g, height - 1);
      WidthHalves(n, height - 1);
      var last, w := CalcTreeWidth(n, height) - 1, CalcTreeWidth(n, height - 1);
      Halves(n, height, last);
      ShlMono(w - 1, 2 * last, height - 1);
    }
  }

  /** The flag bits number at most twice the hashes less one exactly when no single child is descended to. */
  lemma {:induction false} BitsBound(H: Combine, vTxid: seq<Digest>, vMatch: seq<bool>)
    requires 1 <= |vTxid| <= |vMatch| && CalcTreeWidth(|vTxid|, Height(|vTxid|)) == 1
    ensures var t := Build(H, vTxid, vMatch, Height(|vTxid|), 0);
            && |t.hashes| <= |vTxid| && |t.bits| <= 2 * |t.hashes| - 1 + Height(|vTxid|)
            && |t.hashes| <= 1 + |Matched(vTxid, vMatch, 0, |vTxid|)| * Height(|vTxid|)
            && (|t.bits| <= 2 * |t.hashes| - 1 <==> NoLoneMatch(|vTxid|, vMatch, Height(|vTxid|)))
  {
    hide Build, Matched, CalcTreeWidth, Lone, NoLoneMatch;
    var n := |vTxid|;
    WholeTree(n);
    Sizes(H, vTxid, vMatch, Height(n), 0);
    HashesPerMatch(H, vTxid, vMatch, Height(n), 0);
    LoneOnEdge(n, vMatch, Height(n), 0);
    LoneFree(n, vMatch, Height(n));
  }

  /** Three transactions of which the last is matched: too many bits. */
  lemma BitsBoundFails(H: Combine, a: Digest, b: Digest, c: Digest)
    ensures CalcTreeWidth(3, Height(3)) == 1
    ensures var t := Build(H, [a, b, c], [false, false, true], Height(3), 0); |t.bits| > 2 * |t.hashes| - 1
  {
    var vTxid, vMatch := [a, b, c], [false, false, true];
    WholeTree(3);
    BitsBound(H, vTxid, vMatch);
    hide Build, HeightFrom, NoLoneMatch;
    assert CalcTreeWidth(3, 0) == 3 && Lo(0, 2) == 2 && Height(3) > 0;
    MatchOnEdge(3, vMatch, Height(3), 0, 2);
  }

  lemma MatchOnEdge(n: nat, vMatch: seq<bool>, height: nat, g: nat, p: nat)
    requires n <= |vMatch| && g < height && CalcTreeWidth(n, g) % 2 == 1 && Lo(g, CalcTreeWidth(n, g) - 1) <= p < n
    requires vMatch[p]
    ensures !NoLoneMatch(n, vMatch, height)
  {
  }

  /** For every choice of transactions of a block: what is built and packed is accepted when unpacked, and shows the
      block's root and exactly the chosen transactions in order. */
  lemma {:induction false} RoundTrip(H: Combine, vTxid: seq<Digest>, vMatch: seq<bool>, vBytes: seq<bv8>)
    requires 1 <= |vTxid| <= |vMatch| && |vTxid| <= MAX_BLOCK_SIZE / 60 && CalcTreeWidth(|vTxid|, Height(|vTxid|)) == 1
    requires Packed(Build(H, vTxid, vMatch, Height(|vTxid|), 0).bits, vBytes)
    ensures var t := Build(H, vTxid, vMatch, Height(|vTxid|), 0);
            var e := Accept(H, |vTxid|, Unpacked(vBytes), t.hashes);
            e.Extracted? && e.hash == RootOf(H, vTxid) && e.matched == Matched(vTxid, vMatch, 0, |vTxid|)
  {
    hide Build, Matched, CalcTreeWidth, Extract, RootOf, CalcHash, NoLoneMatch, StandsAt, Packed, HeightFrom, Lo, Hi;
    var t := Build(H, vTxid, vMatch, Height(|vTxid|), 0);
    WholeTree(|vTxid|);
    BitsBound(H, vTxid, vMatch);
    Sizes(H, vTxid, vMatch, Height(|vTxid|), 0);
    UnpackStands(t.bits, vBytes);
    StandsWhole(t.hashes);
    ExtractUndoesBuild(H, vTxid, vMatch, Height(|vTxid|), 0, Unpacked(vBytes), t.hashes, 0, 0);
    HashIsRoot(H, vTxid);
    Padding(|t.bits|);
  }

  lemma UnpackStands(vBits: seq<bool>, vBytes: seq<bv8>)
    requires Packed(vBits, vBytes)
    ensures StandsAt(vBits, Unpacked(vBytes), 0) && |Unpacked(vBytes)| == 8 * ((|vBits| + 7) / 8)
  {
    hide Packed, Unpacked;
    UnpackPacked(vBits, vBytes);
  }

  lemma Padding(n: nat)
    ensures (8 * ((n + 7) / 8) + 7) / 8 == (n + 7) / 8 && 8 * ((n + 7) / 8) >= n
  {
  }

  // ---- what is accepted is true ----

  /** `a` is a selection, in order, of the entries `lo .. hi` of `b`, those at the positions `at`. */
  ghost predicate Picks(a: seq<Digest>, b: seq<Digest>, lo: nat, hi: nat, at: seq<nat>)
    requires hi <= |b|
  {
    && |at| == |a| && (forall i :: 0 <= i < |a| ==> lo <= at[i] < hi && a[i] == b[at[i]])
    && forall i, j :: 0 <= i < j < |at| ==> at[i] < at[j]
  }

  ghost predicate Selection(a: seq<Digest>, b: seq<Digest>, lo: nat, hi: nat)
    requires hi <= |b|
  {
    exists at :: Picks(a, b, lo, hi, at)
  }

  lemma SelectionsJoin(a1: seq<Digest>, a2: seq<Digest>, b: seq<Digest>, lo: nat, mid: nat, hi: nat)
    requires lo <= mid <= hi <= |b| && Selection(a1, b, lo, mid) && Selection(a2, b, mid, hi)
    ensures Selection(a1 + a2, b, lo, hi)
  {
    var at1 :| Picks(a1, b, lo, mid, at1);
    var at2 :| Picks(a2, b, mid, hi, at2);
    assert Picks(a1 + a2, b, lo, hi, at1 + at2);
  }

  /** Where a partial tree that shows the right hash for a node differs from the block's tree: two pairs with one hash.
      */
  function TreeCollision(H: Combine, vTxid: seq<Digest>, vBits: seq<bool>, vHash: seq<Digest>,
                         height: nat, pos: nat, b: nat, k: nat): (Pair, Pair)
    requires pos < CalcTreeWidth(|vTxid|, height) && b <= |vBits| && k <= |vHash|
    requires Extract(H, |vTxid|, vBits, vHash, height, pos, b, k).Extracted?
    decreases height
  {
    if height == 0 || !vBits[b] then (Pair(ZERO, ZERO), Pair(ZERO, ZERO))
    else
      Halves(|vTxid|, height, pos);
      var two := 2 * pos + 1 < CalcTreeWidth(|vTxid|, height - 1);
      var left := Extract(H, |vTxid|, vBits, vHash, height - 1, 2 * pos, b + 1, k);
      var right := if two
        then Extract(H, |vTxid|, vBits, vHash, height - 1, 2 * pos + 1, left.nBitsUsed, left.nHashUsed) else left;
      var trueLeft := CalcHash(H, vTxid, height - 1, 2 * pos);
      var trueRight := if two then CalcHash(H, vTxid, height - 1, 2 * pos + 1) else trueLeft;
      var (p, q) := (Pair(left.hash, right.hash), Pair(trueLeft, trueRight));
      if Collide(H, p, q) then (p, q)
      else
        var c := TreeCollision(H, vTxid, vBits, vHash, height - 1, 2 * pos, b + 1, k);
        if Collide(H, c.0, c.1) || !two then c
        else TreeCollision(H, vTxid, vBits, vHash, height - 1, 2 * pos + 1, left.nBitsUsed, left.nHashUsed)
  }

  lemma {:induction false} ExtractSound(H: Combine, vTxid: seq<Digest>, vBits: seq<bool>, vHash: seq<Digest>,
                                        height: nat, pos: nat, b: nat, k: nat)
    requires pos < CalcTreeWidth(|vTxid|, height) && b <= |vBits| && k <= |vHash|
    requires Hi(|vTxid|, height, pos) <= |vTxid|
    requires Extract(H, |vTxid|, vBits, vHash, height, pos, b, k).Extracted?
    requires Extract(H, |vTxid|, vBits, vHash, height, pos, b, k).hash == CalcHash(H, vTxid, height, pos)
    ensures Selection(Extract(H, |vTxid|, vBits, vHash, height, pos, b, k).matched, vTxid, Lo(height, pos),
                      Hi(|vTxid|, height, pos))
         || var c := TreeCollision(H, vTxid, vBits, vHash, height, pos, b, k); Collide(H, c.0, c.1)
    decreases height
  {
    hide CalcTreeWidth, Lo, Hi, Selection;
    var n := |vTxid|;
    var e, lo, hi := Extract(H, n, vBits, vHash, height, pos, b, k), Lo(height, pos), Hi(n, height, pos);
    SomeLeaf(n, height, pos);
    if height == 0 || !vBits[b] {
      OneOrNone(e.matched, vTxid, lo, hi);
    } else {
      Halves(n, height, pos);
      SomeLeaf(n, height - 1, 2 * pos);
      var left := Extract(H, n, vBits, vHash, height - 1, 2 * pos, b + 1, k);
      var c := TreeCollision(H, vTxid, vBits, vHash, height, pos, b, k);
      if !Collide(H, c.0, c.1) {
        ExtractSound(H, vTxid, vBits, vHash, height - 1, 2 * pos, b + 1, k);
        if 2 * pos + 1 < CalcTreeWidth(n, height - 1) {
          SomeLeaf(n, height - 1, 2 * pos + 1);
          ExtractSound(H, vTxid, vBits, vHash, height - 1, 2 * pos + 1, left.nBitsUsed, left.nHashUsed);
          var right := Extract(H, n, vBits, vHash, height - 1, 2 * pos + 1, left.nBitsUsed, left.nHashUsed);
          SelectionsJoin(left.matched, right.matched, vTxid, lo, Hi(n, height - 1, 2 * pos), hi);
        }
      }
    }
  }

  lemma OneOrNone(a: seq<Digest>, b: seq<Digest>, lo: nat, hi: nat)
    requires lo < hi <= |b| && (a == [] || a == [b[lo]])
    ensures Selection(a, b, lo, hi)
  {
    assert Picks(a, b, lo, hi, if a == [] then [] else [lo]);
  }

  /** Who shows the root of a block, by whatever bits and hashes over its true number of transactions, shows
      transactions of the block in their order, or has found two pairs of digests with the same hash. */
  lemma {:induction false} AcceptedIsTrue(H: Combine, vTxid: seq<Digest>, vBits: seq<bool>, vHash: seq<Digest>)
    requires vTxid != [] && CalcTreeWidth(|vTxid|, Height(|vTxid|)) == 1 && RootOf(H, vTxid) != ZERO
    requires Reported(Accept(H, |vTxid|, vBits, vHash)) == RootOf(H, vTxid)
    ensures Extract(H, |vTxid|, vBits, vHash, Height(|vTxid|), 0, 0, 0) == Accept(H, |vTxid|, vBits, vHash) != Failed
    ensures Selection(Accept(H, |vTxid|, vBits, vHash).matched, vTxid, 0, |vTxid|)
         || var c := TreeCollision(H, vTxid, vBits, vHash, Height(|vTxid|), 0, 0, 0); Collide(H, c.0, c.1)
  {
    hide CalcTreeWidth, Extract, RootOf, CalcHash, HeightFrom, Lo, Hi, Selection;
    WholeTree(|vTxid|);
    HashIsRoot(H, vTxid);
    ExtractSound(H, vTxid, vBits, vHash, Height(|vTxid|), 0, 0, 0);
  }

  lemma {:induction false} AcceptedIsTrueIfInjective(H: Combine, vTxid: seq<Digest>, vBits: seq<bool>,
                                                     vHash: seq<Digest>)
    requires vTxid != [] && Injective(H) && RootOf(H, vTxid) != ZERO
    requires Reported(Accept(H, |vTxid|, vBits, vHash)) == RootOf(H, vTxid)
    ensures Selection(Accept(H, |vTxid|, vBits, vHash).matched, vTxid, 0, |vTxid|)
  {
    hide CalcTreeWidth, Extract, RootOf, CalcHash, HeightFrom, Selection, Accept;
    RootThere(|vTxid|);
    AcceptedIsTrue(H, vTxid, vBits, vHash);
  }

  // ---- the object ----

  /** What a traversal returns agrees with what it was to extract. */
  ghost predicate Shows(e: Extracted, hash: Digest, nBitsUsed: nat, nHashUsed: nat, before: seq<Digest>,
                        after: seq<Digest>) {
    e.Extracted? && e.hash == hash && e.nBitsUsed == nBitsUsed && e.nHashUsed == nHashUsed
      && after == before + e.matched
  }

  lemma {:induction false} BuildFirst(H: Combine, vTxid: seq<Digest>, vMatch: seq<bool>, height: nat, pos: nat)
    requires |vTxid| <= |vMatch| && pos < CalcTreeWidth(|vTxid|, height) && Hi(|vTxid|, height, pos) <= |vTxid|
    ensures var parent := AnyMatch(vMatch, Lo(height, pos), Hi(|vTxid|, height, pos));
            height == 0 || !parent ==>
              Build(H, vTxid, vMatch, height, pos) == Tree([parent], [CalcHash(H, vTxid, height, pos)])
  {
  }

  lemma BuildInner(H: Combine, vTxid: seq<Digest>, vMatch: seq<bool>, height: nat, pos: nat)
    requires |vTxid| <= |vMatch| && pos < CalcTreeWidth(|vTxid|, height) && Hi(|vTxid|, height, pos) <= |vTxid|
    requires height > 0 && AnyMatch(vMatch, Lo(height, pos), Hi(|vTxid|, height, pos))
    requires 2 * pos < CalcTreeWidth(|vTxid|, height - 1)
    ensures var t := Build(H, vTxid, vMatch, height, pos);
            var left := Build(H, vTxid, vMatch, height - 1, 2 * pos);
            if 2 * pos + 1 < CalcTreeWidth(|vTxid|, height - 1) then
              var right := Build(H, vTxid, vMatch, height - 1, 2 * pos + 1);
              t.bits == [true] + left.bits + right.bits && t.hashes == left.hashes + right.hashes
            else t.bits == [true] + left.bits && t.hashes == left.hashes
  {
    hide CalcTreeWidth, Lo, Hi, AnyMatch, CalcHash;
  }

  lemma Appended<T>(before: seq<T>, first: seq<T>, left: seq<T>, right: seq<T>)
    ensures before + first + left == before + (first + left)
    ensures before + first + left + right == before + (first + left + right)
  {
    assert (before + first) + left == before + (first + left);
    assert (before + (first + left)) + right == before + ((first + left) + right);
  }

  lemma ExtractLeft(H: Combine, n: nat, vBits: seq<bool>, vHash: seq<Digest>, height: nat, pos: nat, b: nat, k: nat)
    requires height > 0 && pos < CalcTreeWidth(n, height) && 2 * pos < CalcTreeWidth(n, height - 1)
    requires b < |vBits| && vBits[b] && k <= |vHash|
    ensures var e := Extract(H, n, vBits, vHash, height, pos, b, k);
            var left := Extract(H, n, vBits, vHash, height - 1, 2 * pos, b + 1, k);
            && (left.Failed? ==> e.Failed?)
            && (left.Extracted? && 2 * pos + 1 >= CalcTreeWidth(n, height - 1) ==>
                  e == left.(hash := H(left.hash, left.hash)))
  {
    hide CalcTreeWidth;
  }

  lemma ExtractRight(H: Combine, n: nat, vBits: seq<bool>, vHash: seq<Digest>, height: nat, pos: nat, b: nat, k: nat)
    requires height > 0 && pos < CalcTreeWidth(n, height) && 2 * pos + 1 < CalcTreeWidth(n, height - 1)
    requires b < |vBits| && vBits[b] && k <= |vHash|
    requires Extract(H, n, vBits, vHash, height - 1, 2 * pos, b + 1, k).Extracted?
    ensures var e := Extract(H, n, vBits, vHash, height, pos, b, k);
            var left := Extract(H, n, vBits, vHash, height - 1, 2 * pos, b + 1, k);
            var right := Extract(H, n, vBits, vHash, height - 1, 2 * pos + 1, left.nBitsUsed, left.nHashUsed);
            if right.Failed? then e.Failed?
            else e == right.(hash := H(left.hash, right.hash), matched := left.matched + right.matched)
  {
    hide CalcTreeWidth;
  }

  lemma {:induction false} ExtractFirst(H: Combine, n: nat, vBits: seq<bool>, vHash: seq<Digest>, height: nat, pos: nat,
                                        b: nat, k: nat)
    requires pos < CalcTreeWidth(n, height) && b <= |vBits| && k <= |vHash|
    ensures var e := Extract(H, n, vBits, vHash, height, pos, b, k);
            && (b == |vBits| ==> e.Failed?)
            && (b < |vBits| && (height == 0 || !vBits[b]) ==>
                  if k == |vHash| then e.Failed?
                  else e == Extracted(vHash[k], b + 1, k + 1, if height == 0 && vBits[b] then [vHash[k]] else []))
  {
  }

  method TreeHeight(n: nat) returns (nHeight: nat)
    ensures nHeight == Height(n)
  {
    nHeight := 0;
    while CalcTreeWidth(n, nHeight) > 1
      invariant HeightFrom(n, nHeight) == Height(n)
      decreases CalcTreeWidth(n, nHeight)
    {
      WidthHalves(n, nHeight);
      nHeight := nHeight + 1;
    }
  }

  class CPartialMerkleTree {
    const H: Combine
    var nTransactions: nat
    var vBits: seq<bool>
    var vHash: seq<Digest>
    var fBad: bool

    constructor (H: Combine, vTxid: seq<Digest>, vMatch: seq<bool>)
      requires 1 <= |vTxid| <= |vMatch|
      ensures this.H == H && nTransactions == |vTxid| && !fBad && CalcTreeWidth(|vTxid|, Height(|vTxid|)) == 1
      ensures vBits == Build(H, vTxid, vMatch, Height(|vTxid|), 0).bits
      ensures vHash == Build(H, vTxid, vMatch, Height(|vTxid|), 0).hashes
    {
      this.H, nTransactions, fBad := H, |vTxid|, false;
      vBits, vHash := [], [];
      new;
      var nHeight := TreeHeight(nTransactions);
      RootThere(|vTxid|);
      TraverseAndBuild(nHeight, 0, vTxid, vMatch);
    }

    constructor Empty(H: Combine)
      ensures this.H == H && nTransactions == 0 && vBits == [] && vHash == [] && fBad
    {
      this.H, nTransactions, vBits, vHash, fBad := H, 0, [], [], true;
    }

    method TraverseAndBuild(height: nat, pos: nat, vTxid: seq<Digest>, vMatch: seq<bool>)
      requires nTransactions == |vTxid| <= |vMatch| && pos < CalcTreeWidth(|vTxid|, height)
      modifies this`vBits, this`vHash
      ensures vBits == old(vBits) + Build(H, vTxid, vMatch, height, pos).bits
      ensures vHash == old(vHash) + Build(H, vTxid, vMatch, height, pos).hashes
      decreases height
    {
      hide CalcTreeWidth, Lo, Hi, AnyMatch, Build, CalcHash;
      SomeLeaf(|vTxid|, height, pos);
      var fParentOfMatch := IsParentOfMatch(height, pos, vMatch);
      BuildFirst(H, vTxid, vMatch, height, pos);
      ghost var bits0, hashes0 := vBits, vHash;
      vBits := vBits + [fParentOfMatch];
      if height == 0 || !fParentOfMatch {
        vHash := vHash + [CalcHash(H, vTxid, height, pos)];
      } else {
        Halves(|vTxid|, height, pos);
        BuildInner(H, vTxid, vMatch, height, pos);
        ghost var left := Build(H, vTxid, vMatch, height - 1, 2 * pos);
        Appended(bits0, [true], left.bits, []);
        TraverseAndBuild(height - 1, pos * 2, vTxid, vMatch);
        if pos * 2 + 1 < CalcTreeWidth(nTransactions, height - 1) {
          ghost var right := Build(H, vTxid, vMatch, height - 1, 2 * pos + 1);
          Appended(bits0, [true], left.bits, right.bits);
          Appended(hashes0, [], left.hashes, right.hashes);
          assert hashes0 + [] == hashes0 && [] + left.hashes == left.hashes;
          TraverseAndBuild(height - 1, pos * 2 + 1, vTxid, vMatch);
        }
      }
    }

    /** Whether a matched transaction stands under the node. */
    method IsParentOfMatch(height: nat, pos: nat, vMatch: seq<bool>) returns (fParentOfMatch: bool)
      requires nTransactions <= |vMatch| && pos < CalcTreeWidth(nTransactions, height)
      ensures Hi(nTransactions, height, pos) <= nTransactions
      ensures fParentOfMatch == AnyMatch(vMatch, Lo(height, pos), Hi(nTransactions, height, pos))
    {
      SomeLeaf(nTransactions, height, pos);
      fParentOfMatch := false;
      var p := Shl(pos, height);
      while p < Shl(pos + 1, height) && p < nTransactions
        invariant Lo(height, pos) <= p <= Hi(nTransactions, height, pos)
        invariant fParentOfMatch == AnyMatch(vMatch, Lo(height, pos), p)
      {
        OneMoreLeaf(vMatch, Lo(height, pos), p);
        fParentOfMatch := fParentOfMatch || vMatch[p];
        p := p + 1;
      }
    }

    method TraverseAndExtract(height: nat, pos: nat, nBitsUsed0: nat, nHashUsed0: nat, vMatch0: seq<Digest>)
        returns (hash: Digest, nBitsUsed: nat, nHashUsed: nat, vMatch: seq<Digest>)
      requires pos < CalcTreeWidth(nTransactions, height) && nBitsUsed0 <= |vBits| && nHashUsed0 <= |vHash|
      modifies this`fBad
      ensures nBitsUsed <= |vBits| && nHashUsed <= |vHash|
      ensures var e := Extract(H, nTransactions, vBits, vHash, height, pos, nBitsUsed0, nHashUsed0);
              && fBad == (old(fBad) || e.Failed?)
              && (e.Extracted? ==> Shows(e, hash, nBitsUsed, nHashUsed, vMatch0, vMatch))
      decreases height
    {
      hide CalcTreeWidth, Extract;
      ExtractFirst(H, nTransactions, vBits, vHash, height, pos, nBitsUsed0, nHashUsed0);
      nBitsUsed, nHashUsed, vMatch := nBitsUsed0, nHashUsed0, vMatch0;
      if nBitsUsed >= |vBits| {
        fBad := true;
        return 0, nBitsUsed, nHashUsed, vMatch;
      }
      var fParentOfMatch := vBits[nBitsUsed];
      nBitsUsed := nBitsUsed + 1;
      if height == 0 || !fParentOfMatch {
        if nHashUsed >= |vHash| {
          fBad := true;
          return 0, nBitsUsed, nHashUsed, vMatch;
        }
        hash := vHash[nHashUsed];
        nHashUsed := nHashUsed + 1;
        if height == 0 && fParentOfMatch {
          vMatch := vMatch + [hash];
        }
      } else {
        Halves(nTransactions, height, pos);
        ExtractLeft(H, nTransactions, vBits, vHash, height, pos, nBitsUsed0, nHashUsed0);
        ghost var l := Extract(H, nTransactions, vBits, vHash, height - 1, 2 * pos, nBitsUsed0 + 1, nHashUsed0);
        var left, right;
        left, nBitsUsed, nHashUsed, vMatch := TraverseAndExtract(height - 1, pos * 2, nBitsUsed, nHashUsed, vMatch);
        if pos * 2 + 1 < CalcTreeWidth(nTransactions, height - 1) {
          ghost var r := Extract(H, nTransactions, vBits, vHash, height - 1, 2 * pos + 1, nBitsUsed, nHashUsed);
          right, nBitsUsed, nHashUsed, vMatch :=
            TraverseAndExtract(height - 1, pos * 2 + 1, nBitsUsed, nHashUsed, vMatch);
          if l.Extracted? {
            ExtractRight(H, nTransactions, vBits, vHash, height, pos, nBitsUsed0, nHashUsed0);
            if r.Extracted? {
              Associative(vMatch0, l.matched, r.matched);
            }
          }
        } else {
          right := left;
        }
        hash := H(left, right);
      }
    }

    /** Reports the root shown and the matched transactions, or zero. */
    method ExtractMatches() returns (root: Digest, vMatch: seq<Digest>)
      modifies this`fBad
      ensures var e := Accept(H, nTransactions, vBits, vHash);
              && root == (if old(fBad) then ZERO else Reported(e))
              && (e.Extracted? ==> vMatch == e.matched && fBad == old(fBad))
    {
      hide CalcTreeWidth, HeightFrom, Extract;
      vMatch := [];
      if nTransactions == 0 {
        return 0, vMatch;
      }
      if nTransactions > MAX_BLOCK_SIZE / 60 {
        return 0, vMatch;
      }
      if |vHash| > nTransactions {
        return 0, vMatch;
      }
      if |vBits| < |vHash| {
        return 0, vMatch;
      }
      var nHeight := TreeHeight(nTransactions);
      RootThere(nTransactions);
      var nBitsUsed, nHashUsed := 0, 0;
      var hashMerkleRoot;
      hashMerkleRoot, nBitsUsed, nHashUsed, vMatch := TraverseAndExtract(nHeight, 0, nBitsUsed, nHashUsed, vMatch);
      if fBad {
        return 0, vMatch;
      }
      if (nBitsUsed + 7) / 8 != (|vBits| + 7) / 8 {
        return 0, vMatch;
      }
      if nHashUsed != |vHash| {
        return 0, vMatch;
      }
      root := hashMerkleRoot;
    }

    method Write() returns (n: nat, hashes: seq<Digest>, vBytes: seq<bv8>)
      ensures n == nTransactions && hashes == vHash && Packed(vBits, vBytes)
    {
      hide Bit;
      n, hashes := nTransactions, vHash;
      var bytes := new bv8[(|vBits| + 7) / 8](_ => 0);
      NoBits();
      var p := 0;
      while p < |vBits|
        invariant p <= |vBits|
        invariant forall q :: 0 <= q < 8 * bytes.Length ==> Bit(bytes[q / 8], q % 8) == (q < p && vBits[q])
      {
        ghost var before := bytes[p / 8];
        bytes[p / 8] := bytes[p / 8] | (if vBits[p] then (1 as bv8) << (p % 8) else 0);
        forall q | 0 <= q < 8 * bytes.Length ensures Bit(bytes[q / 8], q % 8) == (q < p + 1 && vBits[q]) {
          SetBit(before, p % 8, vBits[p], q % 8);
        }
        p := p + 1;
      }
      vBytes := bytes[..];
    }

    method Read(n: nat, hashes: seq<Digest>, vBytes: seq<bv8>)
      modifies this
      ensures nTransactions == n && vHash == hashes && vBits == Unpacked(vBytes) && !fBad
    {
      nTransactions, vHash, vBits := n, hashes, seq(8 * |vBytes|, _ => false);
      var p := 0;
      while p < |vBits|
        invariant p <= |vBits| == 8 * |vBytes| && nTransactions == n && vHash == hashes
        invariant forall q :: 0 <= q < p ==> vBits[q] == Bit(vBytes[q / 8], q % 8)
      {
        vBits := vBits[p := vBytes[p / 8] & ((1 as bv8) << (p % 8)) != 0];
        p := p + 1;
      }
      fBad := false;
    }
  }

  lemma OneMoreLeaf(vMatch: seq<bool>, lo: nat, p: nat)
    requires lo <= p < |vMatch|
    ensures AnyMatch(vMatch, lo, p + 1) == (AnyMatch(vMatch, lo, p) || vMatch[p])
  {
  }

  /** Over the wire and back: a tree built of a block's transactions, written, read and extracted. */
  method SendAndExtract(H: Combine, vTxid: seq<Digest>, vMatch: seq<bool>) returns (root: Digest, matched: seq<Digest>)
    requires 1 <= |vTxid| <= |vMatch| && |vTxid| <= MAX_BLOCK_SIZE / 60
    ensures root == RootOf(H, vTxid) && matched == Matched(vTxid, vMatch, 0, |vTxid|)
  {
    hide Build, Accept, Matched, Packed, RootOf;
    var sent := new CPartialMerkleTree(H, vTxid, vMatch);
    var n, hashes, vBytes := sent.Write();
    var received := new CPartialMerkleTree.Empty(H);
    received.Read(n, hashes, vBytes);
    RoundTrip(H, vTxid, vMatch, vBytes);
    root, matched := received.ExtractMatches();
  }
}

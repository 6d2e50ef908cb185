/** Block locators: how one node tells another which blocks it has. */
module Locator {
  import opened Options
  import Powers
  import opened Ledger
  import opened BlockTree

  /** `k` blocks further back; the null pointer beyond the genesis block. */
  function Back(t: Tree, genesis: BlockHash, p: Ptr, k: nat): (q: Ptr)
    requires TreeOk(t, genesis) && Known(t, p)
    ensures Known(t, q)
    decreases k
  {
    if k == 0 || p.None? then p else Back(t, genesis, Parent(t, genesis, p.value), k - 1)
  }

  lemma {:induction false} BackHeight(t: Tree, genesis: BlockHash, p: Ptr, k: nat)
    requires TreeOk(t, genesis) && Known(t, p)
    ensures Back(t, genesis, p, k).Some? <==> k <= Height(t, p)
    ensures k <= Height(t, p) + 1 ==> Height(t, Back(t, genesis, p, k)) == Height(t, p) - k
    ensures Height(t, p) >= 0 && k == Height(t, p) ==> Back(t, genesis, p, k) == Some(genesis)
    decreases k
  {
    if p.Some? {
      assert Height(t, Parent(t, genesis, p.value)) == Height(t, p) - 1;
      if k > 0 {
        BackHeight(t, genesis, Parent(t, genesis, p.value), k - 1);
      }
    }
  }

  lemma {:induction false} BackAdd(t: Tree, genesis: BlockHash, p: Ptr, a: nat, b: nat)
    requires TreeOk(t, genesis) && Known(t, p)
    ensures Back(t, genesis, Back(t, genesis, p, a), b) == Back(t, genesis, p, a + b)
    decreases a
  {
    if a > 0 && p.Some? {
      BackAdd(t, genesis, Parent(t, genesis, p.value), a - 1, b);
    }
  }

  /** The hashes from `p` on, when `size` of them are there already and the next step is `nStep`. */
  function LocatorFrom(t: Tree, genesis: BlockHash, p: Ptr, nStep: nat, size: nat): seq<BlockHash>
    requires TreeOk(t, genesis) && Known(t, p) && nStep >= 1
    decreases Height(t, p) + 1
  {
    if p.None? then [genesis]
    else
      BackHeight(t, genesis, p, nStep);
      BackHeight(t, genesis, p, Height(t, p) + 1);
      [p.value]
      + LocatorFrom(t, genesis, Back(t, genesis, p, nStep), if size + 1 > 10 then nStep * 2 else nStep, size + 1)
  }

  /** A node, as far as locators are concerned: its blocks and its main chain. */
  datatype Peer = Peer(t: Tree, pnext: map<BlockHash, BlockHash>, best: Ptr)

  predicate Has(peer: Peer, hash: BlockHash) {
    hash in peer.t && IsInMainChain(peer.pnext, peer.best, hash)
  }

  /** The first hash that is in the main chain, or else the genesis block. */
  function FirstKnown(peer: Peer, genesis: BlockHash, vHave: seq<BlockHash>): BlockHash {
    if vHave == [] then genesis else if Has(peer, vHave[0]) then vHave[0] else FirstKnown(peer, genesis, vHave[1..])
  }

  function DistanceFrom(peer: Peer, vHave: seq<BlockHash>, nDistance: nat, nStep: nat): nat {
    if vHave == [] || Has(peer, vHave[0]) then nDistance
    else DistanceFrom(peer, vHave[1..], nDistance + nStep, if nDistance + nStep > 10 then nStep * 2 else nStep)
  }

  // ---- what the locator finds ----

  ghost predicate PeerOk(peer: Peer, genesis: BlockHash) {
    && TreeOk(peer.t, genesis) && peer.best.Some? && Known(peer.t, peer.best)
    && LinksOk(peer.t, genesis, peer.pnext, peer.best)
  }

  /** A hash names one block, with one predecessor. */
  ghost predicate Agree(t: Tree, peer: Peer) {
    forall b :: b in t && b in peer.t ==> t[b] == peer.t[b]
  }

  /** What is below a block of the main chain is in the main chain. */
  lemma {:induction false} MainBelow(t: Tree, genesis: BlockHash, peer: Peer, b: BlockHash, k: nat)
    requires TreeOk(t, genesis) && PeerOk(peer, genesis) && Agree(t, peer) && b in t && Has(peer, b)
    ensures Back(t, genesis, Some(b), k).Some? ==> Has(peer, Back(t, genesis, Some(b), k).value)
    decreases k
  {
    var p := Parent(t, genesis, b);
    if k > 0 && p.Some? {
      assert p == Parent(peer.t, genesis, b);
      MainChainIsAncestry(peer.t, genesis, peer.pnext, peer.best, b);
      AncestorStep(peer.t, genesis, b);
      assert IsAncestor(peer.t, genesis, p, p);
      AncestorTransitive(peer.t, genesis, p, Some(b), peer.best);
      MainChainIsAncestry(peer.t, genesis, peer.pnext, peer.best, p.value);
      MainBelow(t, genesis, peer, p.value, k - 1);
    }
  }

  lemma GenesisKnown(genesis: BlockHash, peer: Peer)
    requires PeerOk(peer, genesis)
    ensures Has(peer, genesis)
  {
    GenesisBelow(peer.t, genesis, peer.best);
    MainChainIsAncestry(peer.t, genesis, peer.pnext, peer.best, genesis);
  }

  /** The chain of `tip` leaves the main chain of the peer `d` blocks back. */
  ghost predicate ForksAt(t: Tree, genesis: BlockHash, peer: Peer, tip: BlockHash, d: nat)
    requires TreeOk(t, genesis) && tip in t
  {
    && Back(t, genesis, Some(tip), d).Some? && Has(peer, Back(t, genesis, Some(tip), d).value)
    && forall k: nat :: k < d && Back(t, genesis, Some(tip), k).Some? ==>
         !Has(peer, Back(t, genesis, Some(tip), k).value)
  }

  /** How far the search may go beyond the fork. */
  function Bound(d: nat): int {
    if d <= 11 then d else 2 * d - 11
  }

  lemma {:induction false} FindsFrom(t: Tree, genesis: BlockHash, peer: Peer, tip: BlockHash, d: nat,
                                     D: nat, nStep: nat, size: nat) returns (e: nat)
    requires TreeOk(t, genesis) && PeerOk(peer, genesis) && Agree(t, peer) && tip in t
    requires ForksAt(t, genesis, peer, tip, d)
    requires nStep >= 1 && (if size <= 10 then nStep == 1 && D == size else nStep == D - 9)
    requires D <= d || D <= Bound(d)
    ensures var p := Back(t, genesis, Some(tip), D);
            var vHave := LocatorFrom(t, genesis, p, nStep, size);
            && Back(t, genesis, Some(tip), e) == Some(FirstKnown(peer, genesis, vHave))
            && d <= e <= DistanceFrom(peer, vHave, D, nStep) <= Bound(d)
    decreases Height(t, Some(tip)) - D
  {
    hide LocatorFrom, FirstKnown, DistanceFrom, Back, Has, PeerOk, Agree;
    var p := Back(t, genesis, Some(tip), D);
    BackHeight(t, genesis, Some(tip), D);
    BackHeight(t, genesis, Some(tip), d);
    if p.None? {
      e := t[tip].nHeight;
      BackHeight(t, genesis, Some(tip), e);
      LocatorEnd(t, genesis, peer, D, nStep, size);
    } else if D >= d {
      BackAdd(t, genesis, Some(tip), d, D - d);
      MainBelow(t, genesis, peer, Back(t, genesis, Some(tip), d).value, D - d);
      LocatorStep(t, genesis, peer, p, D, nStep, size);
      e := D;
    } else {
      BackAdd(t, genesis, Some(tip), D, nStep);
      LocatorStep(t, genesis, peer, p, D, nStep, size);
      e := FindsFrom(t, genesis, peer, tip, d, D + nStep, if size + 1 > 10 then nStep * 2 else nStep, size + 1);
    }
  }

  lemma {:induction false} LocatorEnd(t: Tree, genesis: BlockHash, peer: Peer, D: nat, nStep: nat, size: nat)
    requires TreeOk(t, genesis) && PeerOk(peer, genesis) && nStep >= 1
    ensures FirstKnown(peer, genesis, LocatorFrom(t, genesis, None, nStep, size)) == genesis
    ensures DistanceFrom(peer, LocatorFrom(t, genesis, None, nStep, size), D, nStep) == D
  {
    GenesisKnown(genesis, peer);
    assert LocatorFrom(t, genesis, None, nStep, size) == [genesis];
  }

  /** The first hash of a locator is found, or the search goes on with the rest; sender and receiver step alike. */
  lemma LocatorStep(t: Tree, genesis: BlockHash, peer: Peer, p: Ptr, D: nat, nStep: nat, size: nat)
    requires TreeOk(t, genesis) && p.Some? && Known(t, p) && nStep >= 1
    requires if size <= 10 then nStep == 1 && D == size else nStep == D - 9
    ensures var vHave := LocatorFrom(t, genesis, p, nStep, size);
            var next := if size + 1 > 10 then nStep * 2 else nStep;
            var rest := LocatorFrom(t, genesis, Back(t, genesis, p, nStep), next, size + 1);
            if Has(peer, p.value) then FirstKnown(peer, genesis, vHave) == p.value
              && DistanceFrom(peer, vHave, D, nStep) == D
            else && FirstKnown(peer, genesis, vHave) == FirstKnown(peer, genesis, rest)
                 && DistanceFrom(peer, vHave, D, nStep) == DistanceFrom(peer, rest, D + nStep, next)
  {
    hide Back, Has;
    var vHave := LocatorFrom(t, genesis, p, nStep, size);
    var next := if size + 1 > 10 then nStep * 2 else nStep;
    var rest := LocatorFrom(t, genesis, Back(t, genesis, p, nStep), next, size + 1);
    assert vHave == [p.value] + rest;
    assert vHave[0] == p.value && vHave[1..] == rest;
  }

  /** A peer whose main chain leaves that of `tip` `d` blocks back finds, in a locator made from `tip`, an ancestor of
      `tip` in its main chain: the fork itself if `d` is at most 11, and otherwise one that is less than twice as far
      back. The distance it works out is never short of the true one, and keeps to the same limit. */
  lemma {:induction false} LocatorFinds(t: Tree, genesis: BlockHash, peer: Peer, tip: BlockHash, d: nat)
    requires TreeOk(t, genesis) && PeerOk(peer, genesis) && Agree(t, peer) && tip in t
    requires ForksAt(t, genesis, peer, tip, d)
    ensures var vHave := LocatorFrom(t, genesis, Some(tip), 1, 0);
            var found := FirstKnown(peer, genesis, vHave);
            && Has(peer, found) && found in t && IsAncestor(t, genesis, Some(found), Some(tip))
            && d <= t[tip].nHeight - t[found].nHeight <= DistanceFrom(peer, vHave, 0, 1)
            && (d <= 11 ==> DistanceFrom(peer, vHave, 0, 1) == d)
            && (d >= 12 ==> DistanceFrom(peer, vHave, 0, 1) <= 2 * d - 11)
  {
    hide LocatorFrom, FirstKnown, DistanceFrom, Has;
    var e := FindsFrom(t, genesis, peer, tip, d, 0, 1, 0);
    BackHeight(t, genesis, Some(tip), e);
    BackIsAncestor(t, genesis, Some(tip), e);
    BackAdd(t, genesis, Some(tip), d, e - d);
    MainBelow(t, genesis, peer, Back(t, genesis, Some(tip), d).value, e - d);
  }

  // ---- the distance in 32 bits ----

  /** How many hashes are passed over before one in the main chain. */
  function PassedOver(peer: Peer, vHave: seq<BlockHash>): (k: nat)
    ensures k <= |vHave|
  {
    if vHave == [] || Has(peer, vHave[0]) then 0 else 1 + PassedOver(peer, vHave[1..])
  }

  /** The distance, and the step, after `k` hashes. */
  function Retraced(k: nat): nat {
    if k <= 11 then k else Powers.Pow2(k - 10) + 9
  }

  function StepAfter(k: nat): nat {
    if k < 11 then 1 else Powers.Pow2(k - 10)
  }

  lemma {:induction false} DistanceIs(peer: Peer, vHave: seq<BlockHash>, k: nat)
    ensures DistanceFrom(peer, vHave, Retraced(k), StepAfter(k)) == Retraced(k + PassedOver(peer, vHave))
  {
    if vHave != [] && !Has(peer, vHave[0]) {
      assert Powers.Pow2(1) == 2 && Powers.Pow2(2) == 4;
      assert k > 11 ==> Powers.Pow2(k - 9) == 2 * Powers.Pow2(k - 10);
      DistanceIs(peer, vHave[1..], k + 1);
    }
  }

  /** The distance is less than 2^31 exactly if at most 40 hashes are passed over, and then no step on the way is more.
      */
  lemma {:induction false} FitsIff(peer: Peer, vHave: seq<BlockHash>)
    ensures DistanceFrom(peer, vHave, 0, 1) < 0x8000_0000 <==> PassedOver(peer, vHave) <= 40
    ensures forall k: nat :: k <= 40 ==> Retraced(k) <= 0x4000_0009 && StepAfter(k) <= 0x4000_0000
  {
    hide Powers.Pow2;
    DistanceIs(peer, vHave, 0);
    Thirty();
    forall k: nat ensures k <= 40 ==> Retraced(k) <= 0x4000_0009 && StepAfter(k) <= 0x4000_0000
      ensures k > 40 ==> Retraced(k) >= 0x8000_0009
    {
      if 11 <= k <= 40 {
        PowersGrow(k - 10, 30);
      } else if k > 40 {
        PowersGrow(31, k - 10);
      }
    }
  }

  lemma {:induction false} PowersGrow(a: nat, b: nat)
    requires a <= b
    ensures Powers.Pow2(a) <= Powers.Pow2(b)
    decreases b
  {
    if a < b {
      PowersGrow(a, b - 1);
    }
  }

  lemma Thirty()
    ensures Powers.Pow2(30) == 0x4000_0000 && Powers.Pow2(31) == 0x8000_0000
  {
    assert Powers.Pow2(5) == 32;
    assert Powers.Pow2(10) == 32 * Powers.Pow2(5);
    assert Powers.Pow2(15) == 32 * Powers.Pow2(10);
    assert Powers.Pow2(20) == 32 * Powers.Pow2(15);
    assert Powers.Pow2(25) == 32 * Powers.Pow2(20);
    assert Powers.Pow2(30) == 32 * Powers.Pow2(25);
  }

  lemma {:induction false} BackIsAncestor(t: Tree, genesis: BlockHash, p: Ptr, k: nat)
    requires TreeOk(t, genesis) && Known(t, p)
    ensures IsAncestor(t, genesis, Back(t, genesis, p, k), p)
    decreases k
  {
    if k > 0 && p.Some? {
      BackIsAncestor(t, genesis, Parent(t, genesis, p.value), k - 1);
    }
  }

  /** There is always such a fork: the two chains have the genesis block in common. */
  lemma ForkExists(t: Tree, genesis: BlockHash, peer: Peer, tip: BlockHash) returns (d: nat)
    requires TreeOk(t, genesis) && PeerOk(peer, genesis) && tip in t
    ensures ForksAt(t, genesis, peer, tip, d)
  {
    GenesisKnown(genesis, peer);
    BackHeight(t, genesis, Some(tip), t[tip].nHeight);
    d := 0;
    while Back(t, genesis, Some(tip), d).Some? && !Has(peer, Back(t, genesis, Some(tip), d).value)
      invariant d <= t[tip].nHeight
      invariant forall k: nat :: k < d && Back(t, genesis, Some(tip), k).Some?
                  ==> !Has(peer, Back(t, genesis, Some(tip), k).value)
      decreases t[tip].nHeight - d
    {
      d := d + 1;
    }
    BackHeight(t, genesis, Some(tip), d);
  }

  // ---- the object ----

  lemma {:induction false} LastHash(t: Tree, genesis: BlockHash, nStep: nat, size: nat)
    requires TreeOk(t, genesis) && nStep >= 1
    ensures LocatorFrom(t, genesis, None, nStep, size) == [genesis]
  {
  }

  lemma {:induction false} Unfold(t: Tree, genesis: BlockHash, p: Ptr, nStep: nat, vHave: seq<BlockHash>)
    requires TreeOk(t, genesis) && p.Some? && Known(t, p) && nStep >= 1
    ensures var q, next := Back(t, genesis, p, nStep), if |vHave| + 1 > 10 then nStep * 2 else nStep;
            vHave + LocatorFrom(t, genesis, p, nStep, |vHave|)
              == vHave + [p.value] + LocatorFrom(t, genesis, q, next, |vHave| + 1)
    ensures Height(t, Back(t, genesis, p, nStep)) < Height(t, p)
  {
    hide Back;
    LowerDown(t, genesis, p, nStep);
    var q, next := Back(t, genesis, p, nStep), if |vHave| + 1 > 10 then nStep * 2 else nStep;
    Joins(vHave, p.value, LocatorFrom(t, genesis, q, next, |vHave| + 1));
  }

  lemma {:induction false} LowerDown(t: Tree, genesis: BlockHash, p: Ptr, nStep: nat)
    requires TreeOk(t, genesis) && p.Some? && Known(t, p) && nStep >= 1
    ensures Height(t, Back(t, genesis, p, nStep)) < Height(t, p)
  {
    hide Back;
    BackHeight(t, genesis, p, nStep);
    BackHeight(t, genesis, p, Height(t, p) + 1);
  }

  lemma Joins(a: seq<BlockHash>, b: BlockHash, c: seq<BlockHash>)
    ensures a + ([b] + c) == a + [b] + c
  {
  }

  /** The loop over predecessors. */
  method WalkBack(t: Tree, genesis: BlockHash, from: Ptr, nStep: nat) returns (p: Ptr)
    requires TreeOk(t, genesis) && Known(t, from)
    ensures p == Back(t, genesis, from, nStep)
  {
    p := from;
    var i := 0;
    while p.Some? && i < nStep
      invariant i <= nStep && Known(t, p) && p == Back(t, genesis, from, i)
    {
      BackAdd(t, genesis, from, i, 1);
      p := Parent(t, genesis, p.value);
      i := i + 1;
    }
    BackAdd(t, genesis, from, i, nStep - i);
  }

  class CBlockLocator {
    var vHave: seq<BlockHash>

    constructor ()
      ensures vHave == []
    {
      vHave := [];
    }

    method Set(t: Tree, genesis: BlockHash, pindex: Ptr)
      requires TreeOk(t, genesis) && Known(t, pindex)
      modifies this
      ensures vHave == LocatorFrom(t, genesis, pindex, 1, 0)
    {
      hide LocatorFrom, Back;
      vHave := [];
      assert [] + LocatorFrom(t, genesis, pindex, 1, 0) == LocatorFrom(t, genesis, pindex, 1, 0);
      var nStep := 1;
      var p := pindex;
      while p.Some?
        invariant nStep >= 1 && Known(t, p)
        invariant vHave + LocatorFrom(t, genesis, p, nStep, |vHave|) == LocatorFrom(t, genesis, pindex, 1, 0)
        decreases Height(t, p)
      {
        Unfold(t, genesis, p, nStep, vHave);
        vHave := vHave + [p.value];
        p := WalkBack(t, genesis, p, nStep);
        if |vHave| > 10 {
          nStep := nStep * 2;
        }
      }
      LastHash(t, genesis, nStep, |vHave|);
      vHave := vHave + [genesis];
    }

    method GetBlockIndex(peer: Peer, genesis: BlockHash) returns (pindex: BlockHash)
      ensures pindex == FirstKnown(peer, genesis, vHave)
    {
      var i := 0;
      while i < |vHave|
        invariant i <= |vHave| && FirstKnown(peer, genesis, vHave) == FirstKnown(peer, genesis, vHave[i..])
      {
        if vHave[i] in peer.t && IsInMainChain(peer.pnext, peer.best, vHave[i]) {
          return vHave[i];
        }
        assert vHave[i..][1..] == vHave[i + 1..];
        i := i + 1;
      }
      pindex := genesis;
    }

    method GetDistanceBack(peer: Peer) returns (nDistance: nat)
      ensures nDistance == DistanceFrom(peer, vHave, 0, 1)
      ensures nDistance < 0x8000_0000 <==> PassedOver(peer, vHave) <= 40
    {
      FitsIff(peer, vHave);
      nDistance := 0;
      var nStep := 1;
      var i := 0;
      while i < |vHave|
        invariant i <= |vHave| && nStep >= 1
        invariant DistanceFrom(peer, vHave, 0, 1) == DistanceFrom(peer, vHave[i..], nDistance, nStep)
      {
        if vHave[i] in peer.t && IsInMainChain(peer.pnext, peer.best, vHave[i]) {
          return;
        }
        assert vHave[i..][1..] == vHave[i + 1..];
        nDistance := nDistance + nStep;
        if nDistance > 10 {
          nStep := nStep * 2;
        }
        i := i + 1;
      }
    }
  }
}

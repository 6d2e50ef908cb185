/** The tree of known blocks, and what replaying a branch of it from the genesis block gives. */
module BlockTree {
  import opened Options
  import opened Coins
  import opened Ledger
  import opened Fading

  /** A block index; `None` as a predecessor is the null pointer below the genesis block. */
  datatype BlockIndex = BlockIndex(pprev: Option<BlockHash>, nHeight: nat)

  type Tree = map<BlockHash, BlockIndex>

  /** A pointer into the tree. */
  type Ptr = Option<BlockHash>

  predicate TreeOk(t: Tree, genesis: BlockHash) {
    && genesis in t && t[genesis] == BlockIndex(None, 0)
    && forall b {:trigger ParentOk(t, genesis, b)} :: b in t ==> ParentOk(t, genesis, b)
  }

  predicate ParentOk(t: Tree, genesis: BlockHash, b: BlockHash)
    requires b in t
  {
    && (b == genesis <==> t[b].pprev.None?)
    && Known(t, t[b].pprev)
    && t[b].nHeight == Height(t, t[b].pprev) + 1
  }

  function Parent(t: Tree, genesis: BlockHash, b: BlockHash): (p: Ptr)
    requires TreeOk(t, genesis) && b in t
    ensures Known(t, p) && t[b].nHeight == Height(t, p) + 1
    ensures p.None? <==> b == genesis
  {
    assert ParentOk(t, genesis, b);
    t[b].pprev
  }

  predicate Known(t: Tree, p: Ptr) {
    p.Some? ==> p.value in t
  }

  function Height(t: Tree, p: Ptr): int
    requires Known(t, p)
  {
    if p.None? then -1 else t[p.value].nHeight
  }

  ghost predicate IsAncestor(t: Tree, genesis: BlockHash, a: Ptr, b: Ptr)
    requires TreeOk(t, genesis) && Known(t, b)
    decreases Height(t, b) + 1
  {
    a == b || (b.Some? && IsAncestor(t, genesis, a, Parent(t, genesis, b.value)))
  }

  /** The blocks from `b` down to, but without, its ancestor `a`. */
  ghost function Path(t: Tree, genesis: BlockHash, b: Ptr, a: Ptr): (r: seq<BlockHash>)
    requires TreeOk(t, genesis) && Known(t, b) && IsAncestor(t, genesis, a, b)
    decreases Height(t, b) + 1
  {
    if a == b then [] else [b.value] + Path(t, genesis, Parent(t, genesis, b.value), a)
  }

  // ---- ancestors ----

  lemma {:induction false} AncestorHeight(t: Tree, genesis: BlockHash, a: Ptr, b: Ptr)
    requires TreeOk(t, genesis) && Known(t, b) && IsAncestor(t, genesis, a, b)
    ensures Known(t, a) && Height(t, a) <= Height(t, b)
    ensures Height(t, a) == Height(t, b) ==> a == b
    decreases Height(t, b) + 1
  {
    if a != b {
      AncestorHeight(t, genesis, a, Parent(t, genesis, b.value));
    }
  }

  lemma {:induction false} AncestorTransitive(t: Tree, genesis: BlockHash, a: Ptr, b: Ptr, c: Ptr)
    requires TreeOk(t, genesis) && Known(t, b) && Known(t, c)
    requires IsAncestor(t, genesis, a, b) && IsAncestor(t, genesis, b, c)
    ensures IsAncestor(t, genesis, a, c)
    decreases Height(t, c) + 1
  {
    if b != c {
      AncestorTransitive(t, genesis, a, b, Parent(t, genesis, c.value));
    }
  }

  /** The null pointer is below everything, and the genesis block is below every block. */
  lemma {:induction false} GenesisBelow(t: Tree, genesis: BlockHash, b: Ptr)
    requires TreeOk(t, genesis) && Known(t, b)
    ensures IsAncestor(t, genesis, None, b)
    ensures b.Some? ==> IsAncestor(t, genesis, Some(genesis), b)
    decreases Height(t, b) + 1
  {
    if b.Some? {
      GenesisBelow(t, genesis, Parent(t, genesis, b.value));
    }
  }

  // ---- replaying a branch ----

  /** The unspent outputs after the branch that ends in `p`, if all its blocks connect.
      The genesis block's own outputs never enter the set. */
  ghost function Replay(rules: Rules, t: Tree, genesis: BlockHash, blocks: map<BlockHash, Block>, p: Ptr): Option<Utxo>
    requires TreeOk(t, genesis) && Known(t, p) && t.Keys <= blocks.Keys
    decreases Height(t, p) + 1
  {
    if p.None? || p.value == genesis then Some(map[])
    else
      var before := Replay(rules, t, genesis, blocks, Parent(t, genesis, p.value));
      if before.None? then None
      else
        var r := Connect(rules, before.value, blocks[p.value], t[p.value].nHeight);
        if r.None? then None else Some(r.value.0)
  }

  lemma {:induction false} ReplayStep(rules: Rules, t: Tree, genesis: BlockHash, blocks: map<BlockHash, Block>,
                                      b: BlockHash)
    requires TreeOk(t, genesis) && b in t && b != genesis && t.Keys <= blocks.Keys
    requires Replay(rules, t, genesis, blocks, Parent(t, genesis, b)).Some?
    ensures var r := Connect(rules, Replay(rules, t, genesis, blocks, Parent(t, genesis, b)).value, blocks[b],
                             t[b].nHeight);
            Replay(rules, t, genesis, blocks, Some(b)) == if r.None? then None else Some(r.value.0)
  {
  }

  lemma {:induction false} ReplaySound(rules: Rules, t: Tree, genesis: BlockHash, blocks: map<BlockHash, Block>, p: Ptr)
    requires TreeOk(t, genesis) && Known(t, p) && t.Keys <= blocks.Keys
    requires Replay(rules, t, genesis, blocks, p).Some?
    ensures Sound(Replay(rules, t, genesis, blocks, p).value)
    decreases Height(t, p) + 1
  {
    if p.Some? && p.value != genesis {
      ReplaySound(rules, t, genesis, blocks, Parent(t, genesis, p.value));
      DisconnectUndoesConnect(rules, Replay(rules, t, genesis, blocks, Parent(t, genesis, p.value)).value,
                              blocks[p.value], t[p.value].nHeight);
    }
  }

  /** Undo data made when the block first connected, and read from its file, takes back the last block of any replayed
      branch, whatever has been lost of its records; what it loses besides is of records that the block had emptied. */
  lemma {:induction false} ReplayThenDisconnect(rules: Rules, t: Tree, genesis: BlockHash,
                                                blocks: map<BlockHash, Block>, b: BlockHash, lost: set<TxId>)
    requires TreeOk(t, genesis) && b in t && b != genesis && t.Keys <= blocks.Keys
    requires Replay(rules, t, genesis, blocks, Some(b)).Some?
    ensures var before := Replay(rules, t, genesis, blocks, Parent(t, genesis, b));
            && before.Some? && Sound(before.value)
            && var r := Connect(rules, before.value, blocks[b], t[b].nHeight);
            && r.Some? && ShapeOk(blocks[b].vtx)
            && var after := Replay(rules, t, genesis, blocks, Some(b)).value;
               Disconnect(Faded(after, lost), blocks[b], StoredBlockUndo(r.value.1), t[b].nHeight)
               == Some(Faded(before.value, lost + (before.value.Keys - after.Keys)))
  {
    hide Connect, Disconnect, Sound, StoredBlockUndo, Faded;
    ReplaySound(rules, t, genesis, blocks, Parent(t, genesis, b));
    var before := Replay(rules, t, genesis, blocks, Parent(t, genesis, b)).value;
    ConnectShape(rules, before, blocks[b], t[b].nHeight);
    DisconnectFromFile(rules, before, lost, blocks[b], t[b].nHeight);
  }

  lemma ConnectShape(rules: Rules, u: Utxo, block: Block, nHeight: nat)
    requires Connect(rules, u, block, nHeight).Some?
    ensures ShapeOk(block.vtx)
  {
  }

  // ---- branches without negative versions ----

  ghost predicate NaturalBranch(t: Tree, genesis: BlockHash, blocks: map<BlockHash, Block>, p: Ptr)
    requires TreeOk(t, genesis) && Known(t, p) && t.Keys <= blocks.Keys
    decreases Height(t, p) + 1
  {
    p.None? || p.value == genesis
    || (NaturalBlock(blocks[p.value]) && NaturalBranch(t, genesis, blocks, Parent(t, genesis, p.value)))
  }

  /** It is enough that no transaction of any block of the branch has a negative version. */
  lemma {:induction false} NaturalBlocks(t: Tree, genesis: BlockHash, blocks: map<BlockHash, Block>, p: Ptr)
    requires TreeOk(t, genesis) && Known(t, p) && t.Keys <= blocks.Keys
    ensures NaturalBranch(t, genesis, blocks, p)
       <==> forall b <- t :: b != genesis && IsAncestor(t, genesis, Some(b), p) ==> NaturalBlock(blocks[b])
    decreases Height(t, p) + 1
  {
    hide NaturalBlock;
    if p.Some? && p.value != genesis {
      NaturalBlocks(t, genesis, blocks, Parent(t, genesis, p.value));
      AncestorStep(t, genesis, p.value);
    } else if p.Some? {
      AncestorStep(t, genesis, genesis);
    }
  }

  lemma {:induction false} ReplayNatural(rules: Rules, t: Tree, genesis: BlockHash, blocks: map<BlockHash, Block>,
                                         p: Ptr)
    requires TreeOk(t, genesis) && Known(t, p) && t.Keys <= blocks.Keys
    requires NaturalBranch(t, genesis, blocks, p) && Replay(rules, t, genesis, blocks, p).Some?
    ensures NaturalVersions(Replay(rules, t, genesis, blocks, p).value)
    decreases Height(t, p) + 1
  {
    hide Connect, NaturalBlock;
    if p.Some? && p.value != genesis {
      var prev := Parent(t, genesis, p.value);
      ReplayNatural(rules, t, genesis, blocks, prev);
      ConnectKeepsNatural(rules, Replay(rules, t, genesis, blocks, prev).value, blocks[p.value], t[p.value].nHeight);
    }
  }

  /** Of the replay of such a branch nothing can be lost. */
  lemma {:induction false} ReplayWhole(rules: Rules, t: Tree, genesis: BlockHash, blocks: map<BlockHash, Block>, p: Ptr,
                                       lost: set<TxId>)
    requires TreeOk(t, genesis) && Known(t, p) && t.Keys <= blocks.Keys
    requires NaturalBranch(t, genesis, blocks, p) && Replay(rules, t, genesis, blocks, p).Some?
    ensures Faded(Replay(rules, t, genesis, blocks, p).value, lost) == Replay(rules, t, genesis, blocks, p).value
  {
    hide Connect, Faded;
    ReplaySound(rules, t, genesis, blocks, p);
    ReplayNatural(rules, t, genesis, blocks, p);
    NothingToLose(Replay(rules, t, genesis, blocks, p).value, lost);
  }

  /** A branch that can be replayed can be replayed up to each of its blocks. */
  lemma {:induction false} ReplayPrefix(rules: Rules, t: Tree, genesis: BlockHash, blocks: map<BlockHash, Block>,
                                        a: Ptr, p: Ptr)
    requires TreeOk(t, genesis) && Known(t, p) && t.Keys <= blocks.Keys
    requires IsAncestor(t, genesis, a, p) && Known(t, a)
    requires Replay(rules, t, genesis, blocks, p).Some?
    ensures Replay(rules, t, genesis, blocks, a).Some?
    decreases Height(t, p) + 1
  {
    if a != p {
      AncestorHeight(t, genesis, a, Parent(t, genesis, p.value));
      ReplayPrefix(rules, t, genesis, blocks, a, Parent(t, genesis, p.value));
    }
  }

  lemma AddBlock(t: Tree, genesis: BlockHash, b: BlockHash, prev: BlockHash)
    requires TreeOk(t, genesis) && b !in t && prev in t
    ensures TreeOk(t[b := BlockIndex(Some(prev), t[prev].nHeight + 1)], genesis)
  {
    var t' := t[b := BlockIndex(Some(prev), t[prev].nHeight + 1)];
    forall x | x in t' ensures ParentOk(t', genesis, x) {
      assert x != b ==> ParentOk(t, genesis, x);
    }
  }

  /** Learning of another block changes nothing about the branches known before. */
  lemma {:induction false} GrowTree(rules: Rules, t: Tree, t': Tree, genesis: BlockHash,
                                    blocks: map<BlockHash, Block>, blocks': map<BlockHash, Block>, p: Ptr)
    requires TreeOk(t, genesis) && TreeOk(t', genesis) && Known(t, p)
    requires t.Keys <= blocks.Keys && t'.Keys <= blocks'.Keys && t.Keys <= t'.Keys
    requires forall b <- t :: t'[b] == t[b] && blocks'[b] == blocks[b]
    ensures Replay(rules, t', genesis, blocks', p) == Replay(rules, t, genesis, blocks, p)
    ensures forall a :: IsAncestor(t', genesis, a, p) == IsAncestor(t, genesis, a, p)
    decreases Height(t, p) + 1
  {
    if p.Some? {
      GrowTree(rules, t, t', genesis, blocks, blocks', Parent(t, genesis, p.value));
    }
  }

  /** `undo` is what the file gives back of the undo data that connecting block `b` on top of its own branch makes. */
  ghost predicate UndoRight(rules: Rules, t: Tree, genesis: BlockHash, blocks: map<BlockHash, Block>, b: BlockHash,
                            undo: BlockUndo)
    requires TreeOk(t, genesis) && t.Keys <= blocks.Keys
  {
    && b in t && b != genesis
    && var before := Replay(rules, t, genesis, blocks, Parent(t, genesis, b));
    && before.Some?
    && var r := Connect(rules, before.value, blocks[b], t[b].nHeight);
    && r.Some? && StoredBlockUndo(r.value.1) == undo
  }

  lemma GrowUndo(rules: Rules, t: Tree, t': Tree, genesis: BlockHash,
                 blocks: map<BlockHash, Block>, blocks': map<BlockHash, Block>, b: BlockHash, undo: BlockUndo)
    requires TreeOk(t, genesis) && TreeOk(t', genesis)
    requires t.Keys <= blocks.Keys && t'.Keys <= blocks'.Keys && t.Keys <= t'.Keys
    requires forall b <- t :: t'[b] == t[b] && blocks'[b] == blocks[b]
    requires UndoRight(rules, t, genesis, blocks, b, undo)
    ensures UndoRight(rules, t', genesis, blocks', b, undo)
  {
    hide Replay, Connect;
    GrowTree(rules, t, t', genesis, blocks, blocks', Parent(t, genesis, b));
  }

  // ---- the forward links ----

  /** A block has a forward link iff it is a proper ancestor of the best block, and the link leads towards it. */
  ghost predicate LinksOk(t: Tree, genesis: BlockHash, pnext: map<BlockHash, BlockHash>, best: Ptr)
    requires TreeOk(t, genesis) && Known(t, best)
  {
    && (forall b: BlockHash :: b in pnext <==> IsAncestor(t, genesis, Some(b), best) && Some(b) != best)
    && (forall b <- pnext :: pnext[b] in t && Parent(t, genesis, pnext[b]) == Some(b)
                             && IsAncestor(t, genesis, Some(pnext[b]), best))
  }

  /** `CBlockIndex::IsInMainChain`. */
  predicate IsInMainChain(pnext: map<BlockHash, BlockHash>, best: Ptr, b: BlockHash) {
    b in pnext || Some(b) == best
  }

  lemma {:induction false} MainChainIsAncestry(t: Tree, genesis: BlockHash, pnext: map<BlockHash, BlockHash>, best: Ptr,
                                               b: BlockHash)
    requires TreeOk(t, genesis) && Known(t, best) && LinksOk(t, genesis, pnext, best)
    ensures IsInMainChain(pnext, best, b) <==> IsAncestor(t, genesis, Some(b), best)
  {
  }

  lemma {:induction false} GrowLinks(t: Tree, t': Tree, genesis: BlockHash, pnext: map<BlockHash, BlockHash>, best: Ptr)
    requires TreeOk(t, genesis) && TreeOk(t', genesis) && Known(t, best) && LinksOk(t, genesis, pnext, best)
    requires t.Keys <= t'.Keys && forall b <- t :: t'[b] == t[b]
    requires forall a :: IsAncestor(t', genesis, a, best) == IsAncestor(t, genesis, a, best)
    ensures LinksOk(t', genesis, pnext, best)
  {
    hide IsAncestor;
  }

  lemma UnlinkBest(t: Tree, genesis: BlockHash, pnext: map<BlockHash, BlockHash>, best: BlockHash)
    requires TreeOk(t, genesis) && best in t && best != genesis && LinksOk(t, genesis, pnext, Some(best))
    ensures LinksOk(t, genesis, pnext - {Parent(t, genesis, best).value}, Parent(t, genesis, best))
  {
    var p := Parent(t, genesis, best);
    var pnext' := pnext - {p.value};
    forall b: BlockHash ensures b in pnext' <==> IsAncestor(t, genesis, Some(b), p) && Some(b) != p {
      if IsAncestor(t, genesis, Some(b), p) {
        AncestorHeight(t, genesis, Some(b), p);
      }
    }
  }

  lemma LinkBest(t: Tree, genesis: BlockHash, pnext: map<BlockHash, BlockHash>, b: BlockHash)
    requires TreeOk(t, genesis) && b in t && LinksOk(t, genesis, pnext, Parent(t, genesis, b))
    ensures var p := Parent(t, genesis, b);
            LinksOk(t, genesis, if p.Some? then pnext[p.value := b] else pnext, Some(b))
  {
    var p := Parent(t, genesis, b);
    var pnext' := if p.Some? then pnext[p.value := b] else pnext;
    forall x: BlockHash ensures x in pnext' <==> IsAncestor(t, genesis, Some(x), Some(b)) && x != b {
      if IsAncestor(t, genesis, Some(x), p) {
        AncestorHeight(t, genesis, Some(x), p);
      }
    }
  }

  // ---- finding the fork ----

  /** `a` is an ancestor of both. */
  ghost predicate Common(t: Tree, genesis: BlockHash, a: Ptr, b: Ptr, c: Ptr)
    requires TreeOk(t, genesis) && Known(t, b) && Known(t, c)
  {
    IsAncestor(t, genesis, a, b) && IsAncestor(t, genesis, a, c)
  }

  /** Stepping back from a block that is not itself an ancestor of the other keeps the common ancestors. */
  lemma {:induction false} StepBack(t: Tree, genesis: BlockHash, b: BlockHash, c: Ptr)
    requires TreeOk(t, genesis) && b in t && Known(t, c)
    requires Some(b) != c && t[b].nHeight >= Height(t, c)
    ensures forall a :: IsAncestor(t, genesis, a, c) ==>
              (IsAncestor(t, genesis, a, Some(b)) <==> IsAncestor(t, genesis, a, Parent(t, genesis, b)))
    ensures c.Some? ==> Parent(t, genesis, b).Some?
  {
    forall a | IsAncestor(t, genesis, a, c) ensures a != Some(b) {
      AncestorHeight(t, genesis, a, c);
    }
    assert c.Some? ==> Height(t, Parent(t, genesis, c.value)) == t[c.value].nHeight - 1;
  }

  // ---- paths ----

  /** The `i`-th stop on a path down to `a`, `a` itself being the last one. */
  function Stop(path: seq<BlockHash>, a: Ptr, i: nat): Ptr
    requires i <= |path|
  {
    if i < |path| then Some(path[i]) else a
  }

  /** A path starts at `b`, and each step leads to the predecessor. */
  lemma {:induction false} PathFacts(t: Tree, genesis: BlockHash, b: Ptr, a: Ptr)
    requires TreeOk(t, genesis) && Known(t, b) && IsAncestor(t, genesis, a, b)
    ensures var path := Path(t, genesis, b, a);
            && Stop(path, a, 0) == b
            && forall i :: 0 <= i < |path| ==>
                 path[i] in t && IsAncestor(t, genesis, Some(path[i]), b)
                 && Parent(t, genesis, path[i]) == Stop(path, a, i + 1)
    decreases Height(t, b) + 1
  {
    if a != b {
      var below := Path(t, genesis, Parent(t, genesis, b.value), a);
      PathFacts(t, genesis, Parent(t, genesis, b.value), a);
      var path := Path(t, genesis, b, a);
      assert path == [b.value] + below;
      forall i | 0 < i < |path|
        ensures path[i] in t && IsAncestor(t, genesis, Some(path[i]), b)
        ensures Parent(t, genesis, path[i]) == Stop(path, a, i + 1)
      {
        assert path[i] == below[i - 1] && Stop(path, a, i + 1) == Stop(below, a, i - 1 + 1);
      }
      assert Stop(path, a, 1) == Stop(below, a, 0);
    }
  }

  function Reversed(path: seq<BlockHash>): seq<BlockHash> {
    seq(|path|, i requires 0 <= i < |path| => path[|path| - 1 - i])
  }

  lemma {:induction false} AncestorStep(t: Tree, genesis: BlockHash, b: BlockHash)
    requires TreeOk(t, genesis) && b in t
    ensures forall a :: IsAncestor(t, genesis, a, Some(b))
              <==> a == Some(b) || IsAncestor(t, genesis, a, Parent(t, genesis, b))
  {
  }

  /** Unless nothing was connected before, the fork is a block and not the null pointer. */
  lemma {:induction false} ForkIsBlock(t: Tree, genesis: BlockHash, best: Ptr, pfork: Ptr, pindexNew: BlockHash)
    requires TreeOk(t, genesis) && Known(t, best) && pindexNew in t && Known(t, pfork)
    requires Common(t, genesis, pfork, best, Some(pindexNew))
    requires forall a :: Common(t, genesis, a, best, Some(pindexNew)) ==> IsAncestor(t, genesis, a, pfork)
    ensures best.Some? ==> pfork.Some?
    ensures Path(t, genesis, best, pfork) != [] ==> pfork.Some?
  {
    GenesisBelow(t, genesis, best);
    GenesisBelow(t, genesis, Some(pindexNew));
    assert best.Some? ==> Common(t, genesis, Some(genesis), best, Some(pindexNew));
  }

  lemma {:induction false} UndoBelow(t: Tree, genesis: BlockHash, undo: set<BlockHash>, a: Ptr, b: Ptr)
    requires TreeOk(t, genesis) && Known(t, a) && Known(t, b) && IsAncestor(t, genesis, a, b)
    requires forall x: BlockHash :: x != genesis && IsAncestor(t, genesis, Some(x), b) ==> x in undo
    ensures forall x: BlockHash :: x != genesis && IsAncestor(t, genesis, Some(x), a) ==> x in undo
  {
    forall x: BlockHash | IsAncestor(t, genesis, Some(x), a) ensures IsAncestor(t, genesis, Some(x), b) {
      AncestorTransitive(t, genesis, Some(x), a, b);
    }
  }
}

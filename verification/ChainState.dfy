/** The node's chain state: block index, undo files, coin view at the tip, and the switch of the best chain. */
module ChainState {
  import opened Options
  import opened Coins
  import opened Ledger
  import opened Fading
  import opened CoinsView
  import opened BlockConnect
  import opened BlockTree
  import opened Maturity
  import opened PoolSwitch
  import opened PoolReturn
  import opened Comeback
  import MemPool

  /** `DiskError` stands for a failed read or write, which can happen at any access to a disk that is not reliable. */
  datatype Outcome = Done | Invalid | DiskError

  class Node {
    const rules: Rules
    const genesis: BlockHash
    const reliableDisk: bool

    var mapBlockIndex: Tree
    var blockFiles: map<BlockHash, Block>
    /** What the undo files give back, which is not all that goes into them. */
    var undoFiles: map<BlockHash, BlockUndo>
    var pnext: map<BlockHash, BlockHash>
    var pindexBest: Ptr
    const pcoinsTip: View
    const mempool: MemPool.CTxMemPool

    ghost predicate IndexOk()
      reads `mapBlockIndex, `blockFiles
    {
      TreeOk(mapBlockIndex, genesis) && mapBlockIndex.Keys == blockFiles.Keys
    }

    ghost function ReplayTo(p: Ptr): Option<Utxo>
      requires IndexOk() && Known(mapBlockIndex, p)
      reads `mapBlockIndex, `blockFiles
    {
      Replay(rules, mapBlockIndex, genesis, blockFiles, p)
    }

    ghost predicate UndoOk()
      requires IndexOk()
      reads `mapBlockIndex, `blockFiles, `undoFiles
    {
      forall b <- undoFiles :: UndoRight(rules, mapBlockIndex, genesis, blockFiles, b, undoFiles[b])
    }

    /** Every block that may have to be disconnected has its undo data. */
    ghost predicate UndoThere(p: Ptr)
      requires IndexOk() && Known(mapBlockIndex, p)
      reads `mapBlockIndex, `blockFiles, `undoFiles
    {
      forall b: BlockHash :: b != genesis && IsAncestor(mapBlockIndex, genesis, Some(b), p) ==> b in undoFiles
    }

    /** The view shows the replay of the branch that ends in `p`, but for versions lost in files or the database. */
    ghost predicate ViewAt(view: View, p: Ptr)
      requires IndexOk() && view.Valid()
      reads `mapBlockIndex, `blockFiles, view.Repr
    {
      && Known(mapBlockIndex, p)
      && view.Best() == p
      && ReplayTo(p).Some? && Shows(Live(view.Contents()), ReplayTo(p).value)
    }

    /** The pool is in order, and a transaction's hash stands for one transaction in blocks and pool alike. */
    ghost predicate PoolOk()
      reads `blockFiles, mempool
    {
      mempool.Valid() && forall b <- blockFiles :: mempool.AllGenuine(blockFiles[b].vtx)
    }

    ghost predicate Valid()
      reads this, pcoinsTip.Repr, mempool
    {
      && IndexOk()
      && this !in pcoinsTip.Repr && pcoinsTip.Valid() && ViewAt(pcoinsTip, pindexBest)
      && pcoinsTip.base != null && pcoinsTip.base.base == null && AllUnspent(pcoinsTip.Store())
      && LinksOk(mapBlockIndex, genesis, pnext, pindexBest)
      && UndoOk() && UndoThere(pindexBest)
      && mempool !in pcoinsTip.Repr && PoolOk()
    }

    constructor (rules: Rules, genesis: Block, reliableDisk: bool, mempool: MemPool.CTxMemPool)
      requires mempool.Valid() && mempool.AllGenuine(genesis.vtx)
      ensures Valid() && pindexBest == None && this.rules == rules && this.reliableDisk == reliableDisk
      ensures this.mempool == mempool
      ensures this.genesis == genesis.hash && mapBlockIndex == map[genesis.hash := BlockIndex(None, 0)]
      ensures blockFiles == map[genesis.hash := genesis] && fresh(pcoinsTip.Repr)
    {
      var db := new View.Database();
      var tip := new View.Cache(db);
      this.rules, this.genesis, this.reliableDisk := rules, genesis.hash, reliableDisk;
      mapBlockIndex, blockFiles := map[genesis.hash := BlockIndex(None, 0)], map[genesis.hash := genesis];
      undoFiles, pnext, pindexBest, pcoinsTip, this.mempool := map[], map[], None, tip, mempool;
      new;
      FadedNothing(map[]);
      assert Live(map[]) == Faded(map[], {}) && AllUnspent(map[]);
      Assembled();
    }

    /** Takes a block in, unless it is known already, its predecessor is not known, or it is not acceptable after that.
        */
    method AcceptBlock(block: Block, prev: BlockHash, acceptable: bool) returns (ok: bool)
      requires Valid() && mempool.AllGenuine(block.vtx)
      modifies this`mapBlockIndex, this`blockFiles
      ensures Valid()
      ensures ok == (block.hash !in old(mapBlockIndex) && prev in old(mapBlockIndex) && acceptable)
      ensures ok ==>
                mapBlockIndex
                == old(mapBlockIndex)[block.hash := BlockIndex(Some(prev), old(mapBlockIndex)[prev].nHeight + 1)]
      ensures blockFiles == if ok then old(blockFiles)[block.hash := block] else old(blockFiles)
      ensures !ok ==> mapBlockIndex == old(mapBlockIndex)
    {
      if block.hash in mapBlockIndex {
        return false;
      }
      if prev !in mapBlockIndex {
        return false;
      }
      if !acceptable {
        return false;
      }
      AddToBlockIndex(block, prev);
      ok := true;
    }

    /** Enters a block whose predecessor is known. */
    method AddToBlockIndex(block: Block, prev: BlockHash)
      requires Valid() && mempool.AllGenuine(block.vtx) && block.hash !in mapBlockIndex && prev in mapBlockIndex
      modifies this`mapBlockIndex, this`blockFiles
      ensures Valid()
      ensures mapBlockIndex
                == old(mapBlockIndex)[block.hash := BlockIndex(Some(prev), old(mapBlockIndex)[prev].nHeight + 1)]
      ensures blockFiles == old(blockFiles)[block.hash := block]
    {
      hide Replay, IsAncestor, UndoRight, Live, LinksOk;
      ghost var t, files := mapBlockIndex, blockFiles;
      AddBlock(t, genesis, block.hash, prev);
      mapBlockIndex := mapBlockIndex[block.hash := BlockIndex(Some(prev), mapBlockIndex[prev].nHeight + 1)];
      blockFiles := blockFiles[block.hash := block];
      forall p: Ptr | Known(t, p)
        ensures ReplayTo(p) == Replay(rules, t, genesis, files, p)
        ensures forall a :: IsAncestor(mapBlockIndex, genesis, a, p) == IsAncestor(t, genesis, a, p)
      {
        GrowTree(rules, t, mapBlockIndex, genesis, files, blockFiles, p);
      }
      GrowLinks(t, mapBlockIndex, genesis, pnext, pindexBest);
      forall b | b in undoFiles ensures UndoRight(rules, mapBlockIndex, genesis, blockFiles, b, undoFiles[b]) {
        GrowUndo(rules, t, mapBlockIndex, genesis, files, blockFiles, b, undoFiles[b]);
      }
    }

    /** As long as no block of the best chain has a transaction with a negative version, the coin view at the tip shows
        the replay itself. */
    lemma TipWhole()
      requires Valid() && NaturalBranch(mapBlockIndex, genesis, blockFiles, pindexBest)
      ensures ReplayTo(pindexBest) == Some(Live(pcoinsTip.Contents()))
    {
      hide Replay, Live, Faded, LinksOk, UndoOk, UndoThere, View.Contents;
      var lost :| Live(pcoinsTip.Contents()) == Faded(ReplayTo(pindexBest).value, lost);
      ReplayWhole(rules, mapBlockIndex, genesis, blockFiles, pindexBest, lost);
    }

    // ---- one block ----

    method DiskFails() returns (failed: bool)
      ensures reliableDisk ==> !failed
    {
      failed := false;
      if !reliableDisk {
        failed := *;
      }
    }

    method DisconnectBlock(pindex: BlockHash, view: View) returns (r: Outcome)
      requires IndexOk() && UndoOk() && pindex in undoFiles
      requires view.Valid() && view.base != null && this !in view.Repr
      requires ViewAt(view, Some(pindex)) && view.pindexTip == Some(pindex)
      modifies view.Repr
      ensures view.BaseUnmoved()
      ensures r != Invalid && (reliableDisk ==> r == Done)
      ensures r == Done ==> ViewAt(view, Parent(mapBlockIndex, genesis, pindex)) && view.pindexTip == view.Best()
      ensures view.Grown() && (r == Done ==> HasEntriesOf(view.Contents(), blockFiles[pindex].vtx))
    {
      hide Connect, Replay, Live, Disconnect, ShapeOk, TreeOk, Faded, StoredBlockUndo, View.Contents, View.Best;
      var failed := DiskFails();
      if failed {
        return DiskError;
      }
      var block, blockUndo := blockFiles[pindex], undoFiles[pindex];
      var nHeight, pprev := mapBlockIndex[pindex].nHeight, mapBlockIndex[pindex].pprev;
      assert UndoRight(rules, mapBlockIndex, genesis, blockFiles, pindex, blockUndo);
      ghost var lost :| Live(view.Contents()) == Faded(ReplayTo(Some(pindex)).value, lost);
      ReplayThenDisconnect(rules, mapBlockIndex, genesis, blockFiles, pindex, lost);
      var fOk, fClean := DisconnectTransactions(block, blockUndo, view, nHeight);
      assert fOk && fClean;
      view.SetBestBlock(pprev.value);
      r := Done;
    }

    method ConnectBlock(pindex: BlockHash, view: View) returns (r: Outcome)
      requires IndexOk() && UndoOk() && pindex in mapBlockIndex
      requires view.Valid() && view.base != null && this !in view.Repr
      requires ViewAt(view, Parent(mapBlockIndex, genesis, pindex)) && view.pindexTip == view.Best()
      modifies view.Repr, this`undoFiles
      ensures view.BaseUnmoved()
      ensures UndoOk() && forall b <- old(undoFiles) :: b in undoFiles && undoFiles[b] == old(undoFiles)[b]
      ensures r == Invalid ==> ReplayTo(Some(pindex)).None?
      ensures reliableDisk ==> r != DiskError
      ensures r == Done ==> ViewAt(view, Some(pindex)) && view.pindexTip == view.Best()
      ensures r == Done ==> pindex == genesis || pindex in undoFiles
      ensures view.Grown()
    {
      hide Connect, Replay, Live, Sound, TreeOk, Shows, StoredBlockUndo, View.Contents, View.Best;
      if pindex == genesis {
        AtGenesis();
        view.SetBestBlock(pindex);
        return Done;
      }
      var block, nHeight := blockFiles[pindex], mapBlockIndex[pindex].nHeight;
      ReplaySound(rules, mapBlockIndex, genesis, blockFiles, mapBlockIndex[pindex].pprev);
      ReplayStep(rules, mapBlockIndex, genesis, blockFiles, pindex);
      ConnectShown(rules, ReplayTo(mapBlockIndex[pindex].pprev).value, Live(view.Contents()), block, nHeight);
      var ok, blockundo := ConnectTransactions(rules, block, view, mapBlockIndex, nHeight);
      if !ok {
        return Invalid;
      }
      var written := WriteUndo(pindex, blockundo);
      if !written {
        return DiskError;
      }
      view.SetBestBlock(pindex);
      r := Done;
    }

    /** Writes the undo data of a block, unless it was written before. */
    method WriteUndo(pindex: BlockHash, blockundo: BlockUndo) returns (ok: bool)
      requires IndexOk() && UndoOk()
      requires UndoRight(rules, mapBlockIndex, genesis, blockFiles, pindex, StoredBlockUndo(blockundo))
      modifies this`undoFiles
      ensures UndoOk() && forall b <- old(undoFiles) :: b in undoFiles && undoFiles[b] == old(undoFiles)[b]
      ensures (reliableDisk ==> ok) && (ok ==> pindex in undoFiles)
    {
      hide UndoRight, StoredBlockUndo;
      var failed := DiskFails();
      if failed {
        return false;
      }
      if pindex !in undoFiles {
        undoFiles := undoFiles[pindex := StoredBlockUndo(blockundo)];
        var failed := DiskFails();
        if failed {
          return false;
        }
      }
      ok := true;
    }

    lemma AtGenesis()
      requires IndexOk()
      ensures Known(mapBlockIndex, Some(genesis)) && Known(mapBlockIndex, Parent(mapBlockIndex, genesis, genesis))
      ensures ReplayTo(Some(genesis)) == Some(map[]) == ReplayTo(Parent(mapBlockIndex, genesis, genesis))
    {
    }

    // ---- switching the best chain ----

    /** The last block that two branches have in common. */
    method FindFork(best: Ptr, pindexNew: BlockHash) returns (pfork: Ptr)
      requires IndexOk() && Known(mapBlockIndex, best) && pindexNew in mapBlockIndex
      ensures Known(mapBlockIndex, pfork) && Common(mapBlockIndex, genesis, pfork, best, Some(pindexNew))
      ensures forall a :: Common(mapBlockIndex, genesis, a, best, Some(pindexNew))
                      ==> IsAncestor(mapBlockIndex, genesis, a, pfork)
    {
      ghost var t := mapBlockIndex;
      var plonger: Ptr := Some(pindexNew);
      pfork := best;
      GenesisBelow(t, genesis, best);
      GenesisBelow(t, genesis, plonger);
      assert Common(t, genesis, None, best, plonger);
      while pfork.Some? && pfork != plonger
        invariant Known(t, pfork) && Known(t, plonger) && plonger.Some? && (best.Some? ==> pfork.Some?)
        invariant forall a :: Common(t, genesis, a, best, Some(pindexNew)) <==> Common(t, genesis, a, pfork, plonger)
        decreases Height(t, pfork)
      {
        while mapBlockIndex[plonger.value].nHeight > mapBlockIndex[pfork.value].nHeight
          invariant Known(t, plonger) && plonger.Some?
          invariant forall a :: Common(t, genesis, a, best, Some(pindexNew)) <==> Common(t, genesis, a, pfork, plonger)
        {
          StepBack(t, genesis, plonger.value, pfork);
          plonger := mapBlockIndex[plonger.value].pprev;
          assert plonger.Some?;
        }
        if pfork == plonger {
          break;
        }
        StepBack(t, genesis, pfork.value, plonger);
        pfork := mapBlockIndex[pfork.value].pprev;
        assert pfork.Some?;
      }
      GenesisBelow(t, genesis, plonger);
      assert Common(t, genesis, pfork, pfork, plonger);
    }

    /** Collects the blocks from `from` down to, but without, its ancestor `to`. */
    method Collect(from: Ptr, to: Ptr) returns (path: seq<BlockHash>)
      requires IndexOk() && Known(mapBlockIndex, from) && IsAncestor(mapBlockIndex, genesis, to, from)
      ensures path == Path(mapBlockIndex, genesis, from, to)
    {
      path := [];
      var pindex := from;
      while pindex != to
        invariant Known(mapBlockIndex, pindex) && IsAncestor(mapBlockIndex, genesis, to, pindex)
        invariant path + Path(mapBlockIndex, genesis, pindex, to) == Path(mapBlockIndex, genesis, from, to)
        decreases Height(mapBlockIndex, pindex)
      {
        path := path + [pindex.value];
        pindex := Parent(mapBlockIndex, genesis, pindex.value);
      }
    }

    method DisconnectAll(vDisconnect: seq<BlockHash>, ghost pfork: Ptr, view: View) returns (r: Outcome)
      requires IndexOk() && UndoOk()
      requires Known(mapBlockIndex, pindexBest) && IsAncestor(mapBlockIndex, genesis, pfork, pindexBest)
      requires vDisconnect == Path(mapBlockIndex, genesis, pindexBest, pfork)
      requires UndoThere(pindexBest) && (vDisconnect != [] ==> pfork.Some?)
      requires view.Valid() && view.base != null && this !in view.Repr
      requires ViewAt(view, pindexBest) && view.pindexTip == pindexBest
      modifies view.Repr
      ensures view.BaseUnmoved() && r != Invalid && (reliableDisk ==> r == Done)
      ensures r == Done ==> ViewAt(view, pfork) && view.pindexTip == pfork
      ensures r == Done ==> HasEntries(view.Contents(), blockFiles, vDisconnect)
    {
      hide Replay, IsAncestor, Connect, Live, LinksOk, TreeOk, Shows, UndoRight, View.Contents, View.Best;
      PathFacts(mapBlockIndex, genesis, pindexBest, pfork);
      for i := 0 to |vDisconnect|
        invariant view.BaseUnmoved()
        invariant ViewAt(view, Stop(vDisconnect, pfork, i)) && view.pindexTip == Stop(vDisconnect, pfork, i)
        invariant HasEntries(view.Contents(), blockFiles, vDisconnect[..i])
      {
        var failed := DiskFails();
        if failed {
          return DiskError;
        }
        assert vDisconnect[i] in undoFiles;
        ghost var before := view.Contents();
        r := DisconnectBlock(vDisconnect[i], view);
        if r != Done {
          return;
        }
        OneMoreHasEntries(before, view.Contents(), blockFiles, vDisconnect, i);
      }
      assert vDisconnect[..|vDisconnect|] == vDisconnect;
      r := Done;
    }

    method ConnectAll(vConnect: seq<BlockHash>, ghost pfork: Ptr, ghost pindexNew: BlockHash, view: View)
      returns (r: Outcome)
      requires IndexOk() && UndoOk() && pindexNew in mapBlockIndex
      requires IsAncestor(mapBlockIndex, genesis, pfork, Some(pindexNew)) && Known(mapBlockIndex, pfork)
      requires vConnect == Reversed(Path(mapBlockIndex, genesis, Some(pindexNew), pfork))
      requires UndoThere(pfork)
      requires view.Valid() && view.base != null && this !in view.Repr && ViewAt(view, pfork) && view.pindexTip == pfork
      modifies view.Repr, this`undoFiles
      ensures view.BaseUnmoved()
      ensures UndoOk() && forall b <- old(undoFiles) :: b in undoFiles && undoFiles[b] == old(undoFiles)[b]
      ensures r == Invalid ==> ReplayTo(Some(pindexNew)).None?
      ensures reliableDisk ==> r != DiskError
      ensures r == Done ==>
                ViewAt(view, Some(pindexNew)) && view.pindexTip == Some(pindexNew) && UndoThere(Some(pindexNew))
      ensures view.Grown()
    {
      hide Replay, IsAncestor, UndoRight, UndoOk, Live, Path, TreeOk, View.Contents, View.Best;
      ghost var path := Path(mapBlockIndex, genesis, Some(pindexNew), pfork);
      PathFacts(mapBlockIndex, genesis, Some(pindexNew), pfork);
      ghost var n := |path|;
      for i := 0 to |vConnect|
        invariant view.BaseUnmoved()
        invariant UndoOk() && forall b <- old(undoFiles) :: b in undoFiles && undoFiles[b] == old(undoFiles)[b]
        invariant ViewAt(view, Stop(path, pfork, n - i)) && view.pindexTip == Stop(path, pfork, n - i)
        invariant UndoThere(Stop(path, pfork, n - i)) && view.Grown()
      {
        var failed := DiskFails();
        if failed {
          return DiskError;
        }
        assert vConnect[i] == path[n - 1 - i];
        ghost var before := undoFiles;
        r := ConnectBlock(vConnect[i], view);
        if r != Done {
          if r == Invalid && ReplayTo(Some(pindexNew)).Some? {
            ReplayPrefix(rules, mapBlockIndex, genesis, blockFiles, Some(vConnect[i]), Some(pindexNew));
          }
          return;
        }
        AncestorStep(mapBlockIndex, genesis, vConnect[i]);
      }
      r := Done;
    }

    /** Brings `view` from the current best chain to the branch that ends in `pindexNew`. */
    method SwitchView(pindexNew: BlockHash, view: View)
      returns (r: Outcome, vDisconnect: seq<BlockHash>, vConnect: seq<BlockHash>, pfork: Ptr)
      requires IndexOk() && UndoOk() && pindexNew in mapBlockIndex
      requires view.Valid() && view.base != null && this !in view.Repr && ViewAt(view, pindexBest)
      requires UndoThere(pindexBest)
      modifies view.Repr, this`undoFiles
      ensures view.BaseUnmoved()
      ensures UndoOk() && forall b <- old(undoFiles) :: b in undoFiles && undoFiles[b] == old(undoFiles)[b]
      ensures r == Invalid ==> ReplayTo(Some(pindexNew)).None?
      ensures reliableDisk ==> r != DiskError
      ensures r == Done ==>
                ViewAt(view, Some(pindexNew)) && view.pindexTip == Some(pindexNew) && UndoThere(Some(pindexNew))
      ensures Known(mapBlockIndex, pfork) && Common(mapBlockIndex, genesis, pfork, pindexBest, Some(pindexNew))
      ensures IsFork(mapBlockIndex, genesis, pindexBest, pfork, Some(pindexNew)) && (pindexBest.Some? ==> pfork.Some?)
      ensures vDisconnect == Path(mapBlockIndex, genesis, pindexBest, pfork) && (vDisconnect != [] ==> pfork.Some?)
      ensures vConnect == Reversed(Path(mapBlockIndex, genesis, Some(pindexNew), pfork))
      ensures r == Done ==> HasEntries(view.Contents(), blockFiles, vDisconnect)
    {
      hide Replay, IsAncestor, Connect, Live, Path, Reversed, TreeOk, View.Contents, View.Best, View.Store, HasEntries,
           UndoRight, Shows;
      var best := view.GetBestBlock();
      pfork := FindFork(best, pindexNew);
      vDisconnect := Collect(best, pfork);
      var path := Collect(Some(pindexNew), pfork);
      vConnect := Reversed(path);
      ForkIsBlock(mapBlockIndex, genesis, best, pfork, pindexNew);
      r := DisconnectAll(vDisconnect, pfork, view);
      if r == Done {
        UndoBelow(mapBlockIndex, genesis, undoFiles.Keys, pfork, best);
        ghost var before := view.Contents();
        r := ConnectAll(vConnect, pfork, pindexNew, view);
        StillHasEntries(before, view.Contents(), blockFiles, vDisconnect);
      }
    }

    /** Outputs of transactions that a switch to `pindexNew` disconnects for good: those that are not there on the new
        branch, and that the pool spends in a transaction that does not leave with the switch. */
    ghost function ForGood(pindexNew: BlockHash): iset<OutPoint>
      requires IndexOk() && Known(mapBlockIndex, pindexBest) && pindexNew in mapBlockIndex
      reads `mapBlockIndex, `blockFiles, `pindexBest, mempool
    {
      LeftBehind(rules, mapBlockIndex, genesis, blockFiles, pindexBest, Some(pindexNew), mempool.mapTx)
    }

    /** The pool transactions that a switch to `pindexNew` has nothing to do with, nor with what they descend from. */
    ghost function Unmoved(pindexNew: BlockHash): set<TxId>
      requires IndexOk() && Known(mapBlockIndex, pindexBest) && pindexNew in mapBlockIndex
      reads `mapBlockIndex, `blockFiles, `pindexBest, mempool
    {
      Staying(rules, mapBlockIndex, genesis, blockFiles, pindexBest, Some(pindexNew), mempool.mapTx, mempool.rank)
    }

    /** The switch disconnects a transaction with this hash that may come back into the pool. */
    ghost predicate BackFrom(pindexNew: BlockHash, txid: TxId)
      requires IndexOk() && Known(mapBlockIndex, pindexBest) && pindexNew in mapBlockIndex
      reads `mapBlockIndex, `blockFiles, `pindexBest
    {
      MayComeBack(rules, mapBlockIndex, genesis, blockFiles, pindexBest, Some(pindexNew), txid)
    }

    /** One of these spends an output that is gone for good. */
    ghost predicate OneMissed(pindexNew: BlockHash)
      requires IndexOk() && Known(mapBlockIndex, pindexBest) && pindexNew in mapBlockIndex
      reads `mapBlockIndex, `blockFiles, `pindexBest, mempool
    {
      exists x, n: nat :: Missed(rules, mapBlockIndex, genesis, blockFiles, pindexBest, Some(pindexNew), mempool.mapTx,
                                 mempool.rank, x, n)
    }

    /** All that the pool's transactions spend is there, but for `gone`. */
    ghost predicate PoolSupported(gone: iset<OutPoint>)
      requires IndexOk() && Known(mapBlockIndex, pindexBest) && ReplayTo(pindexBest).Some?
      reads `mapBlockIndex, `blockFiles, `pindexBest, mempool
    {
      MemPool.SupportedBut(mempool.mapTx, ReplayTo(pindexBest).value, gone)
    }

    ghost function SwitchTo(pindexNew: BlockHash): (s: Switch)
      requires IndexOk() && Known(mapBlockIndex, pindexBest) && pindexNew in mapBlockIndex
      reads `mapBlockIndex, `blockFiles, `pindexBest
      ensures s.Valid()
    {
      Switch(rules, mapBlockIndex, genesis, blockFiles, pindexBest, Some(pindexNew))
    }

    /** Of every pool transaction all is in order that does not depend on the chain. */
    ghost predicate PoolFair()
      reads mempool
    {
      MemPool.AllFair(rules, mempool.content, mempool.mapTx)
    }

    lemma {:induction false} TipRecorded(view: View, p: Ptr)
      requires IndexOk() && PoolOk() && view.Valid() && ViewAt(view, p)
      ensures Recorded(Live(view.Contents()), mempool.content)
    {
      hide Replay, Recorded, Live, Shows, View.Contents, View.Best, TreeOk;
      forall b | b in blockFiles ensures AllOf(blockFiles[b].vtx, mempool.content) {
        assert forall k :: 0 <= k < |blockFiles[b].vtx| ==> mempool.Genuine(blockFiles[b].vtx[k]);
      }
      hide AllOf;
      ReplayRecorded(rules, mapBlockIndex, genesis, blockFiles, p, mempool.content);
      ShownRecorded(Live(view.Contents()), ReplayTo(p).value, mempool.content);
    }

    /** Which pool transactions pass the tests at any time, and so after a switch: those that the chain does not know,
        whose inputs are there, and whose coinbases are buried deep enough under the best block. */
    lemma StillAcceptable(x: TxId)
      requires Valid() && PoolFair() && pindexBest.Some? && x in mempool.mapTx
      ensures var tx, m := mempool.mapTx[x], MemPool.PoolContents(pcoinsTip.Contents(), mempool.mapTx - {x});
              var nHeight := mapBlockIndex[pindexBest.value].nHeight + 1;
              MemPool.InputsGood(rules, m, tx, nHeight) <==>
                && x !in pcoinsTip.Contents() && Ledger.HaveInputs(Live(m), tx) && Mature(Live(m), tx, nHeight)
    {
      hide Recorded, Live, Fair, View.Contents, View.Best, LinksOk, UndoOk, UndoThere, TreeOk, Replay, Shows;
      TipRecorded(pcoinsTip, pindexBest);
      MemPool.RankedIds(mempool.mapTx, mempool.rank);
      MemPool.StillGood(rules, pcoinsTip.Contents(), mempool.mapTx, mempool.content, x,
                        mapBlockIndex[pindexBest.value].nHeight + 1);
    }

    /** Whether all is there after a switch is decided before it, if what is gone for good was made by coinbases and is
        spent by transactions that the switch has nothing to do with. */
    lemma DecidedBefore(pindexNew: BlockHash)
      requires Valid() && pindexNew in mapBlockIndex
      requires forall x, n :: x in mempool.mapTx && 0 <= n < |mempool.mapTx[x].vin|
                              && mempool.mapTx[x].vin[n].prevout in ForGood(pindexNew) ==>
                                x in Unmoved(pindexNew) && FromCoinbase(mempool.mapTx[x].vin[n].prevout.hash)
      ensures ForGood(pindexNew) == iset{} || OneMissed(pindexNew)
    {
      hide Abandoned, ThereNoMore, Staying, Leaving, LinksOk, UndoOk, UndoThere, MayComeBack, FromCoinbase,
           Shows, Replay, View.Contents, View.Best;
      if o :| o in ForGood(pindexNew) {
        assert SpentByRest(mapBlockIndex, genesis, blockFiles, pindexBest, Some(pindexNew), mempool.mapTx, o);
        var x, n: nat :| x in mempool.mapTx && n < |mempool.mapTx[x].vin| && mempool.mapTx[x].vin[n].prevout == o;
        NotInPool(pindexNew, o.hash);
        assert Missed(rules, mapBlockIndex, genesis, blockFiles, pindexBest, Some(pindexNew), mempool.mapTx,
                      mempool.rank, x, n);
      }
    }

    /** The hash of a known coinbase. */
    ghost predicate FromCoinbase(txid: TxId)
      reads `blockFiles
    {
      exists b, k :: b in blockFiles && 0 <= k < |blockFiles[b].vtx| && IsCoinBaseOf(blockFiles[b].vtx[k], txid)
    }

    predicate IsCoinBaseOf(tx: Tx, txid: TxId) {
      tx.IsCoinBase() && tx.txid == txid
    }

    lemma NotInPool(pindexNew: BlockHash, txid: TxId)
      requires IndexOk() && PoolOk() && Known(mapBlockIndex, pindexBest) && pindexNew in mapBlockIndex
      requires FromCoinbase(txid)
      ensures txid !in mempool.mapTx && !BackFrom(pindexNew, txid)
    {
      hide TreeOk, MayComeBack;
      var b, k :| b in blockFiles && 0 <= k < |blockFiles[b].vtx| && IsCoinBaseOf(blockFiles[b].vtx[k], txid);
      assert mempool.Genuine(blockFiles[b].vtx[k]);
      forall b, k | b in blockFiles && 0 <= k < |blockFiles[b].vtx|
        ensures mempool.content(blockFiles[b].vtx[k].txid) == blockFiles[b].vtx[k]
      {
        assert mempool.Genuine(blockFiles[b].vtx[k]);
      }
      CoinbaseNeverBack(rules, mapBlockIndex, genesis, blockFiles, pindexBest, Some(pindexNew), mempool.mapTx,
                        mempool.content, blockFiles[b].vtx[k]);
    }

    /** Makes the branch that ends in `pindexNew` the best chain, or leaves coins, links, pool and best block as they
        are. */
    method SetBestChain(pindexNew: BlockHash) returns (r: Outcome, ghost turns: Turns, ghost flushed: bool)
      requires Valid() && pindexNew in mapBlockIndex
      modifies this`undoFiles, this`pnext, this`pindexBest, pcoinsTip.Repr, mempool
      ensures Valid()
      ensures forall b <- old(undoFiles) :: b in undoFiles && undoFiles[b] == old(undoFiles)[b]
      ensures r == Done ==> pindexBest == Some(pindexNew)
      ensures r == Invalid ==> ReplayTo(Some(pindexNew)).None?
      ensures reliableDisk ==> (r == Done <==> ReplayTo(Some(pindexNew)).Some?)
      ensures r != Done ==> pcoinsTip.Contents() == old(pcoinsTip.Contents())
      ensures r != Done ==> pnext == old(pnext) && pindexBest == old(pindexBest)
      ensures r != Done ==> mempool.mapTx == old(mempool.mapTx)
      ensures r == Done ==> NothingConnected(old(pindexBest), pindexNew)
      ensures r == Done ==> forall x <- old(Unmoved(pindexNew)) :: x in mempool.mapTx
      ensures r == Done ==> forall x <- mempool.mapTx :: x in old(mempool.mapTx) || old(BackFrom(pindexNew, x))
      ensures r == Done && old(pindexBest.Some? && PoolSupported(iset{})) ==> PoolSupported(old(ForGood(pindexNew)))
      ensures r == Done && old(OneMissed(pindexNew)) ==> !PoolSupported(iset{})
      ensures old(PoolFair()) ==> PoolFair()
      ensures r == Done && old(pindexBest.Some? && PoolSupported(iset{}))
              && old(ForGood(pindexNew) == iset{} || OneMissed(pindexNew)) ==>
                (PoolSupported(iset{}) <==> old(ForGood(pindexNew)) == iset{})
      ensures r == Done ==> PoolThen(old(SwitchTo(pindexNew)), turns, flushed, mempool.mapTx)
      ensures r == Done ==>
                turns == Turns(rules, pcoinsTip.Contents(), old(mempool.mapTx), mempool.rank, turns.txs,
                               mapBlockIndex[pindexNew].nHeight + 1, turns.policy)
    {
      hide Node.Valid, Replay, LinksOk, TreeOk, View.Contents, View.Best, Node.PoolSupported, Node.PoolFair, IsFork,
           Path, Reversed, Node.NothingConnected, Node.OneMissed, Node.BackFrom, Node.Unmoved, Node.ForGood,
           Node.UndoThere, Node.ViewAt, Node.UndoOk, TurnsThen, HasEntries, EntriesBehind, AllUnspent;
      flushed, turns := false, Turns(rules, map[], map[], mempool.rank, [], 0, []);
      Frames();
      var view := new View.Cache(pcoinsTip);
      var vDisconnect, vConnect;
      var pfork;
      r, vDisconnect, vConnect, pfork := Prepare(pindexNew, view);
      if r != Done {
        return;
      }
      turns, flushed := Adopt(vDisconnect, vConnect, pfork, pindexNew, view);
    }

    lemma Frames()
      requires Valid()
      ensures IndexOk() && Known(mapBlockIndex, pindexBest) && ReplayTo(pindexBest).Some?
      ensures pcoinsTip.Valid() && this !in pcoinsTip.Repr && mempool !in pcoinsTip.Repr
      ensures pcoinsTip.base != null && pcoinsTip.base.base == null && AllUnspent(pcoinsTip.Store())
      ensures LinksOk(mapBlockIndex, genesis, pnext, pindexBest) && UndoOk() && UndoThere(pindexBest) && PoolOk()
    {
    }

    /** Brings `view` to the new branch; the node is as it was, but for undo data that may have been written. */
    method Prepare(pindexNew: BlockHash, view: View)
      returns (r: Outcome, vDisconnect: seq<BlockHash>, vConnect: seq<BlockHash>, pfork: Ptr)
      requires Valid() && pindexNew in mapBlockIndex
      requires view.Valid() && view.base == pcoinsTip && view.Repr == {view} + pcoinsTip.Repr
      requires this !in view.Repr && mempool !in view.Repr
      requires view.Contents() == pcoinsTip.Contents() && view.Best() == pcoinsTip.Best()
      modifies view.Repr, this`undoFiles
      ensures Valid() && pcoinsTip.Contents() == old(pcoinsTip.Contents())
      ensures forall b <- old(undoFiles) :: b in undoFiles && undoFiles[b] == old(undoFiles)[b]
      ensures r == Invalid ==> ReplayTo(Some(pindexNew)).None?
      ensures reliableDisk ==> r != DiskError
      ensures r == Done ==> ViewAt(view, Some(pindexNew)) && view.pindexTip == Some(pindexNew)
      ensures r == Done ==> UndoThere(Some(pindexNew)) && ReplayTo(Some(pindexNew)).Some?
      ensures Known(mapBlockIndex, pfork)
      ensures IsFork(mapBlockIndex, genesis, pindexBest, pfork, Some(pindexNew)) && (pindexBest.Some? ==> pfork.Some?)
      ensures vDisconnect == Path(mapBlockIndex, genesis, pindexBest, pfork) && (vDisconnect != [] ==> pfork.Some?)
      ensures vConnect == Reversed(Path(mapBlockIndex, genesis, Some(pindexNew), pfork))
      ensures r == Done ==> HasEntries(view.Contents(), blockFiles, vDisconnect)
    {
      hide Replay, IsAncestor, Live, LinksOk, Path, Reversed, UndoOk, UndoRight, TreeOk, Common, Shows,
           View.Contents, View.Best, IsFork;
      r, vDisconnect, vConnect, pfork := SwitchView(pindexNew, view);
    }

    /** Makes what `view` shows the state of the node: coins, links, pool and best block. */
    method Adopt(vDisconnect: seq<BlockHash>, vConnect: seq<BlockHash>, ghost pfork: Ptr, pindexNew: BlockHash,
                 view: View) returns (ghost turns: Turns, ghost flushed: bool)
      requires Valid() && pindexNew in mapBlockIndex && Known(mapBlockIndex, pfork)
      requires IsFork(mapBlockIndex, genesis, pindexBest, pfork, Some(pindexNew)) && (pindexBest.Some? ==> pfork.Some?)
      requires vDisconnect == Path(mapBlockIndex, genesis, pindexBest, pfork) && (vDisconnect != [] ==> pfork.Some?)
      requires vConnect == Reversed(Path(mapBlockIndex, genesis, Some(pindexNew), pfork))
      requires view.Valid() && view.base == pcoinsTip && this !in view.Repr && mempool !in view.Repr
      requires UndoThere(Some(pindexNew))
      requires ViewAt(view, Some(pindexNew)) && view.pindexTip == Some(pindexNew)
      requires HasEntries(view.Contents(), blockFiles, vDisconnect)
      modifies view, this`pnext, this`pindexBest, pcoinsTip.Repr, mempool
      ensures Valid() && pindexBest == Some(pindexNew) && NothingConnected(old(pindexBest), pindexNew)
      ensures forall x <- old(Unmoved(pindexNew)) :: x in mempool.mapTx
      ensures forall x <- mempool.mapTx :: x in old(mempool.mapTx) || old(BackFrom(pindexNew, x))
      ensures old(pindexBest.Some? && PoolSupported(iset{})) ==> PoolSupported(old(ForGood(pindexNew)))
      ensures old(OneMissed(pindexNew)) ==> !PoolSupported(iset{})
      ensures old(PoolFair()) ==> PoolFair()
      ensures PoolThen(old(SwitchTo(pindexNew)), turns, flushed, mempool.mapTx)
      ensures turns == Turns(rules, pcoinsTip.Contents(), old(mempool.mapTx), mempool.rank, turns.txs,
                             mapBlockIndex[pindexNew].nHeight + 1, turns.policy)
    {
      hide Replay, IsAncestor, Live, LinksOk, Path, Reversed, TreeOk, Common, LeftBehind, View.Contents, View.Best,
           MemPool.SupportedBut, Missed, Staying, MayComeBack, Shows, UndoRight, Node.OneMissed, Node.BackFrom,
           Node.Unmoved, Node.ForGood, Node.NothingConnected, Node.PoolFair, Node.UndoOk,
           Node.UndoThere, PoolThen, HasEntries, AllUnspent, View.Store, MemPool.CTxMemPool.Valid, Node.SwitchTo,
           Node.PoolOk, Node.Valid;
      Frames();
      flushed := Commit(view, pindexNew);
      Relink(vDisconnect, vConnect, pfork, pindexNew);
      turns := MovePool(vDisconnect, vConnect, pfork, pindexNew, flushed);
      pindexBest := Some(pindexNew);
      Assembled();
    }

    lemma Assembled()
      requires IndexOk() && this !in pcoinsTip.Repr && pcoinsTip.Valid() && ViewAt(pcoinsTip, pindexBest)
      requires pcoinsTip.base != null && pcoinsTip.base.base == null && AllUnspent(pcoinsTip.Store())
      requires LinksOk(mapBlockIndex, genesis, pnext, pindexBest) && UndoOk() && UndoThere(pindexBest)
      requires mempool !in pcoinsTip.Repr && PoolOk()
      ensures Valid()
    {
    }

    /** The part of it that concerns the pool. */
    method MovePool(vDisconnect: seq<BlockHash>, vConnect: seq<BlockHash>, ghost pfork: Ptr, pindexNew: BlockHash,
                    ghost flushed: bool) returns (ghost turns: Turns)
      requires IndexOk() && PoolOk() && Known(mapBlockIndex, pindexBest) && pindexNew in mapBlockIndex
      requires Known(mapBlockIndex, pfork)
      requires IsFork(mapBlockIndex, genesis, pindexBest, pfork, Some(pindexNew)) && (pindexBest.Some? ==> pfork.Some?)
      requires vDisconnect == Path(mapBlockIndex, genesis, pindexBest, pfork)
      requires vConnect == Reversed(Path(mapBlockIndex, genesis, Some(pindexNew), pfork))
      requires pcoinsTip.Valid() && mempool !in pcoinsTip.Repr && this !in pcoinsTip.Repr
      requires ViewAt(pcoinsTip, Some(pindexNew))
      requires if flushed then AllUnspent(pcoinsTip.Contents())
               else HasEntries(pcoinsTip.Contents(), blockFiles, vDisconnect)
      requires ReplayTo(pindexBest).Some?
      modifies mempool, pcoinsTip.Repr
      ensures PoolOk() && ViewAt(pcoinsTip, Some(pindexNew)) && NothingConnected(pindexBest, pindexNew)
      ensures pcoinsTip.ShowsSame() && PoolThen(SwitchTo(pindexNew), turns, flushed, mempool.mapTx)
      ensures turns == Turns(rules, pcoinsTip.Contents(), old(mempool.mapTx), mempool.rank, turns.txs,
                             mapBlockIndex[pindexNew].nHeight + 1, turns.policy)
      ensures forall x <- old(Unmoved(pindexNew)) :: x in mempool.mapTx
      ensures forall x <- mempool.mapTx :: x in old(mempool.mapTx) || old(BackFrom(pindexNew, x))
      ensures pindexBest.Some? && old(PoolSupported(iset{}))
              ==> MemPool.SupportedBut(mempool.mapTx, ReplayTo(Some(pindexNew)).value, old(ForGood(pindexNew)))
      ensures old(OneMissed(pindexNew)) ==> !MemPool.Supported(mempool.mapTx, ReplayTo(Some(pindexNew)).value)
      ensures old(PoolFair()) ==> PoolFair()
    {
      hide Replay, IsAncestor, Live, Path, Reversed, TreeOk, Common, LeftBehind, View.Contents, View.Best,
           MemPool.SupportedBut, Missed, Staying, MayComeBack, Shows, Node.OneMissed, Node.BackFrom, Node.Unmoved,
           Node.ForGood, Node.NothingConnected, Node.PoolFair, TurnsThen, HasEntries, EntriesBehind, AllUnspent,
           View.Store, MemPool.CTxMemPool.Valid, IsFork;
      if !flushed {
        EntriesOff(SwitchTo(pindexNew), pfork, pcoinsTip.Contents(), vDisconnect);
      }
      turns := UpdatePool(vDisconnect, vConnect, pfork, pindexNew);
      if !flushed {
        NoneComesBack(SwitchTo(pindexNew), turns, mempool.mapTx);
      }
    }

    /** No transaction of a block that the switch has connected is in the pool, nor anything in conflict with one. */
    ghost predicate NothingConnected(best: Ptr, pindexNew: BlockHash)
      requires IndexOk() && Known(mapBlockIndex, best) && pindexNew in mapBlockIndex
      reads `mapBlockIndex, `blockFiles, mempool
    {
      forall b <- mapBlockIndex :: OffBranch(mapBlockIndex, genesis, Some(pindexNew), best, b) ==> NoneOf(b)
    }

    ghost predicate NoneOf(b: BlockHash)
      requires b in blockFiles
      reads `mapBlockIndex, `blockFiles, mempool
    {
      forall k :: 0 <= k < |blockFiles[b].vtx| ==> MemPool.Absent(mempool.mapTx, blockFiles[b].vtx[k])
    }

    /** Takes the transactions of the old branch back into the pool as far as they can be, and drops those of the new
        one. */
    method UpdatePool(vDisconnect: seq<BlockHash>, vConnect: seq<BlockHash>, ghost pfork: Ptr, pindexNew: BlockHash)
      returns (ghost turns: Turns)
      requires IndexOk() && PoolOk() && Known(mapBlockIndex, pindexBest) && pindexNew in mapBlockIndex
      requires Known(mapBlockIndex, pfork)
      requires IsFork(mapBlockIndex, genesis, pindexBest, pfork, Some(pindexNew)) && (pindexBest.Some? ==> pfork.Some?)
      requires vDisconnect == Path(mapBlockIndex, genesis, pindexBest, pfork)
      requires vConnect == Reversed(Path(mapBlockIndex, genesis, Some(pindexNew), pfork))
      requires pcoinsTip.Valid() && mempool !in pcoinsTip.Repr && this !in pcoinsTip.Repr
      requires ViewAt(pcoinsTip, Some(pindexNew))
      requires ReplayTo(pindexBest).Some?
      modifies mempool, pcoinsTip.Repr
      ensures PoolOk() && ViewAt(pcoinsTip, Some(pindexNew)) && NothingConnected(pindexBest, pindexNew)
      ensures pcoinsTip.ShowsSame() && TurnsThen(SwitchTo(pindexNew), turns, mempool.mapTx)
      ensures turns == Turns(rules, pcoinsTip.Contents(), old(mempool.mapTx), mempool.rank, turns.txs,
                             mapBlockIndex[pindexNew].nHeight + 1, turns.policy)
      ensures forall x <- old(Unmoved(pindexNew)) :: x in mempool.mapTx
      ensures forall x <- mempool.mapTx :: x in old(mempool.mapTx) || old(BackFrom(pindexNew, x))
      ensures pindexBest.Some? && old(PoolSupported(iset{}))
              ==> MemPool.SupportedBut(mempool.mapTx, ReplayTo(Some(pindexNew)).value, old(ForGood(pindexNew)))
      ensures old(OneMissed(pindexNew)) ==> !MemPool.Supported(mempool.mapTx, ReplayTo(Some(pindexNew)).value)
      ensures old(PoolFair()) ==> PoolFair()
    {
      hide Recorded, Fair, AllOf;
      hide Replay, IsAncestor, Live, Path, Reversed, TreeOk, Shows, View.Contents, View.Best, AllBack, TxsOf,
           MemPool.SupportedBut, MemPool.Pending, MemPool.Settled, MemPool.Absent, Missed, Staying, IsFork, MayComeBack,
           MemPool.Ranked, MemPool.NextExact, MemPool.FromBefore, MemPool.Undisturbed, LeftBehind, TurnsThen, BackTxs,
           ConnectedTxs, MemPool.AfterTurns, MemPool.AfterAllConnected;
      ghost var u := ReplayTo(Some(pindexNew)).value;
      ghost var gone, before := ForGood(pindexNew), mempool.mapTx;
      PathsKnown(pfork, pindexNew);
      var vResurrect := Resurrecting(vDisconnect);
      var vDelete := Deleting(vConnect);
      MovedTxs(pfork, pindexNew);
      MemPool.RankedIds(before, mempool.rank);
      ShownAlike(Live(pcoinsTip.Contents()), u, before, vResurrect, vDelete, gone);
      if pindexBest.Some? && PoolSupported(iset{}) {
        PendingAfterSwitch(rules, mapBlockIndex, genesis, blockFiles, pindexBest, pfork, Some(pindexNew), before);
      }
      ghost var kept := Unmoved(pindexNew);
      StayingUntouched(rules, mapBlockIndex, genesis, blockFiles, pindexBest, pfork, Some(pindexNew), before,
                       mempool.rank, vDisconnect, vConnect);
      TipRecorded(pcoinsTip, Some(pindexNew));
      ghost var policy := mempool.Reorganise(rules, vResurrect, vDelete, pcoinsTip, mapBlockIndex, gone, kept);
      turns := Turns(rules, pcoinsTip.Contents(), before, mempool.rank, vResurrect,
                     mapBlockIndex[pindexNew].nHeight + 1, policy);
      TurnsTold(pfork, pindexNew, turns, vDelete, mempool.mapTx);
      HeldOrBack(rules, mapBlockIndex, genesis, blockFiles, pindexBest, pfork, Some(pindexNew), before, vDisconnect,
                 mempool.mapTx);
      if x, n: nat :| Missed(rules, mapBlockIndex, genesis, blockFiles, pindexBest, Some(pindexNew), before,
                             mempool.rank, x, n) {
        MissedStays(pindexNew, before, x, n);
        MissedAfter(rules, mapBlockIndex, genesis, blockFiles, pindexBest, Some(pindexNew), before, mempool.rank, x, n,
                    mempool.mapTx);
      }
      ShownAlike(Live(pcoinsTip.Contents()), u, mempool.mapTx, vResurrect, vDelete, gone);
      ConnectedAbsent(pfork, pindexNew, vConnect, vDelete);
    }

    /** What the reorganisation of the pool has done is what the turns and the connected blocks do. */
    lemma {:induction false} TurnsTold(pfork: Ptr, pindexNew: BlockHash, turns: Turns, vDelete: seq<Tx>,
                                       after: map<TxId, Tx>)
      requires IndexOk() && PoolOk() && Known(mapBlockIndex, pindexBest) && pindexNew in mapBlockIndex
      requires Known(mapBlockIndex, pfork) && ReplayTo(pindexBest).Some?
      requires IsFork(mapBlockIndex, genesis, pindexBest, pfork, Some(pindexNew))
      requires Recorded(Live(turns.m), mempool.content) && turns.Valid() && turns.rules == rules
      requires turns.txs == BackTxs(SwitchTo(pindexNew), pfork) && vDelete == ConnectedTxs(SwitchTo(pindexNew), pfork)
      requires after == MemPool.AfterAllConnected(
                          MemPool.AfterTurns(rules, turns.m, turns.pool, turns.rank, turns.txs, turns.nHeight,
                                             turns.policy), turns.rank, vDelete)
      ensures TurnsThen(SwitchTo(pindexNew), turns, after)
    {
      hide Replay, IsAncestor, TreeOk, BackTxs, ConnectedTxs, Recorded, AllOf, MemPool.AfterAllConnected,
           MemPool.AfterTurns, ReturnsIff;
      ghost var s := SwitchTo(pindexNew);
      OneFork(s, pfork);
      PoolAfterIs(turns, vDelete);
      forall b | b in blockFiles ensures AllOf(blockFiles[b].vtx, mempool.content) {
        EachIsOwn(b);
      }
      if Lenient(turns.policy) {
        AllComeBackIff(s, mempool.content, turns, after);
      }
    }

    lemma {:induction false} MovedTxs(pfork: Ptr, pindexNew: BlockHash)
      requires IndexOk() && Known(mapBlockIndex, pindexBest) && pindexNew in mapBlockIndex
      requires Known(mapBlockIndex, pfork)
      requires IsFork(mapBlockIndex, genesis, pindexBest, pfork, Some(pindexNew))
      ensures var path := Path(mapBlockIndex, genesis, pindexBest, pfork);
              && (forall i :: 0 <= i < |path| ==> path[i] in blockFiles && path[i] in mapBlockIndex)
              && BackTxs(SwitchTo(pindexNew), pfork) == AllBack(rules, mapBlockIndex, blockFiles, path)
      ensures var path := Reversed(Path(mapBlockIndex, genesis, Some(pindexNew), pfork));
              && (forall i :: 0 <= i < |path| ==> path[i] in blockFiles)
              && ConnectedTxs(SwitchTo(pindexNew), pfork) == TxsOf(blockFiles, path)
    {
      hide IsAncestor, Path, AllBack, TxsOf;
      PathsKnown(pfork, pindexNew);
    }

    lemma EachIsOwn(b: BlockHash)
      requires PoolOk() && b in blockFiles
      ensures AllOf(blockFiles[b].vtx, mempool.content)
    {
      assert forall k :: 0 <= k < |blockFiles[b].vtx| ==> mempool.Genuine(blockFiles[b].vtx[k]);
    }

    lemma MissedStays(pindexNew: BlockHash, before: map<TxId, Tx>, x: TxId, n: nat)
      requires IndexOk() && Known(mapBlockIndex, pindexBest) && pindexNew in mapBlockIndex
      requires Missed(rules, mapBlockIndex, genesis, blockFiles, pindexBest, Some(pindexNew), before, mempool.rank, x,
                      n)
      ensures x in before
      ensures x in Staying(rules, mapBlockIndex, genesis, blockFiles, pindexBest, Some(pindexNew), before, mempool.rank)
    {
    }

    lemma {:induction false} PathsKnown(pfork: Ptr, pindexNew: BlockHash)
      requires IndexOk() && Known(mapBlockIndex, pindexBest) && pindexNew in mapBlockIndex
      requires Known(mapBlockIndex, pfork)
      requires IsFork(mapBlockIndex, genesis, pindexBest, pfork, Some(pindexNew))
      ensures var vDisconnect := Path(mapBlockIndex, genesis, pindexBest, pfork);
              forall i :: 0 <= i < |vDisconnect| ==> vDisconnect[i] in blockFiles && vDisconnect[i] in mapBlockIndex
      ensures var vConnect := Reversed(Path(mapBlockIndex, genesis, Some(pindexNew), pfork));
              forall i :: 0 <= i < |vConnect| ==> vConnect[i] in blockFiles && vConnect[i] in mapBlockIndex
    {
      hide Path, IsAncestor, Reversed;
      PathFacts(mapBlockIndex, genesis, pindexBest, pfork);
      PathFacts(mapBlockIndex, genesis, Some(pindexNew), pfork);
      ReversedKnown(blockFiles, Path(mapBlockIndex, genesis, Some(pindexNew), pfork));
    }

    lemma {:induction false} ConnectedAbsent(pfork: Ptr, pindexNew: BlockHash, vConnect: seq<BlockHash>,
                                             vDelete: seq<Tx>)
      requires IndexOk() && Known(mapBlockIndex, pindexBest) && pindexNew in mapBlockIndex
      requires Known(mapBlockIndex, pfork)
      requires IsFork(mapBlockIndex, genesis, pindexBest, pfork, Some(pindexNew))
      requires vConnect == Reversed(Path(mapBlockIndex, genesis, Some(pindexNew), pfork))
      requires (forall i :: 0 <= i < |vConnect| ==> vConnect[i] in blockFiles) && vDelete == TxsOf(blockFiles, vConnect)
      requires forall k :: 0 <= k < |vDelete| ==> MemPool.Absent(mempool.mapTx, vDelete[k])
      ensures NothingConnected(pindexBest, pindexNew)
    {
      hide IsAncestor, Path, TxsOf, MemPool.Absent;
      var path := Path(mapBlockIndex, genesis, Some(pindexNew), pfork);
      forall b | b in mapBlockIndex && OffBranch(mapBlockIndex, genesis, Some(pindexNew), pindexBest, b)
        ensures NoneOf(b)
      {
        PathHolds(mapBlockIndex, genesis, Some(pindexNew), pfork, b);
        BelowFork(mapBlockIndex, genesis, pindexBest, pfork, Some(pindexNew), b);
        var i :| 0 <= i < |path| && path[i] == b;
        assert vConnect[|path| - 1 - i] == b;
        forall k | 0 <= k < |blockFiles[b].vtx| ensures MemPool.Absent(mempool.mapTx, blockFiles[b].vtx[k]) {
          var j := InTxsOf(blockFiles, vConnect, |path| - 1 - i, k);
        }
      }
    }

    /** The transactions of disconnected blocks that are to come back. */
    method Resurrecting(vDisconnect: seq<BlockHash>) returns (vResurrect: seq<Tx>)
      requires PoolOk()
      requires forall i :: 0 <= i < |vDisconnect| ==> vDisconnect[i] in blockFiles && vDisconnect[i] in mapBlockIndex
      ensures vResurrect == AllBack(rules, mapBlockIndex, blockFiles, vDisconnect) && mempool.AllGenuine(vResurrect)
    {
      vResurrect := [];
      for i := 0 to |vDisconnect|
        invariant vResurrect == AllBack(rules, mapBlockIndex, blockFiles, vDisconnect[..i])
        invariant mempool.AllGenuine(vResurrect)
      {
        var pindex := vDisconnect[i];
        assert vDisconnect[..i + 1][..i] == vDisconnect[..i];
        var block := blockFiles[pindex];
        ghost var before := vResurrect;
        assert before + BackOf(rules, mapBlockIndex[pindex].nHeight, block.vtx[..0]) == before;
        for k := 0 to |block.vtx|
          invariant vResurrect == before + BackOf(rules, mapBlockIndex[pindex].nHeight, block.vtx[..k])
          invariant mempool.AllGenuine(vResurrect)
        {
          assert block.vtx[..k + 1][..k] == block.vtx[..k];
          assert mempool.Genuine(block.vtx[k]);
          if !block.vtx[k].IsCoinBase() && mapBlockIndex[pindex].nHeight > rules.scriptsFrom {
            vResurrect := vResurrect + [block.vtx[k]];
          }
        }
        assert block.vtx[..|block.vtx|] == block.vtx;
      }
      assert vDisconnect[..|vDisconnect|] == vDisconnect;
    }

    /** The transactions of connected blocks. */
    method Deleting(vConnect: seq<BlockHash>) returns (vDelete: seq<Tx>)
      requires PoolOk() && forall i :: 0 <= i < |vConnect| ==> vConnect[i] in blockFiles
      ensures vDelete == TxsOf(blockFiles, vConnect) && mempool.AllGenuine(vDelete)
    {
      vDelete := [];
      for i := 0 to |vConnect|
        invariant vDelete == TxsOf(blockFiles, vConnect[..i]) && mempool.AllGenuine(vDelete)
      {
        assert vConnect[..i + 1][..i] == vConnect[..i];
        assert mempool.AllGenuine(blockFiles[vConnect[i]].vtx);
        vDelete := vDelete + blockFiles[vConnect[i]].vtx;
      }
      assert vConnect[..|vConnect|] == vConnect;
    }

    /** Flushes `view`, after which the coin view at the tip shows what it showed, and if it is time for that the tip
        to the database, which then shows it but for what cannot be read back, and has no fully spent records. */
    method Commit(view: View, pindexNew: BlockHash) returns (ghost flushed: bool)
      requires IndexOk() && pindexNew in mapBlockIndex && view.Valid() && view.base == pcoinsTip && this !in view.Repr
      requires pcoinsTip.Valid() && pcoinsTip.base != null && pcoinsTip.base.base == null
      requires AllUnspent(pcoinsTip.Store())
      requires ViewAt(view, Some(pindexNew)) && view.pindexTip == Some(pindexNew)
      modifies view, pcoinsTip.Repr
      ensures ViewAt(pcoinsTip, Some(pindexNew)) && AllUnspent(pcoinsTip.Store())
      ensures if flushed then AllUnspent(pcoinsTip.Contents()) else pcoinsTip.Contents() == old(view.Contents())
    {
      hide Replay, Live, Faded, AllUnspent;
      view.Flush();
      var timeToFlush: bool := *;
      if timeToFlush {
        ghost var u := ReplayTo(Some(pindexNew)).value;
        ghost var lost :| Live(pcoinsTip.Contents()) == Faded(u, lost);
        FadedTwice(u, lost, pcoinsTip.cacheCoins.Keys);
        pcoinsTip.Flush();
      }
      flushed := timeToFlush;
    }

    /** Moves the forward links over to the new branch. */
    method Relink(vDisconnect: seq<BlockHash>, vConnect: seq<BlockHash>, ghost pfork: Ptr, pindexNew: BlockHash)
      requires IndexOk() && Known(mapBlockIndex, pindexBest) && pindexNew in mapBlockIndex
      requires Known(mapBlockIndex, pfork)
      requires LinksOk(mapBlockIndex, genesis, pnext, pindexBest)
      requires Common(mapBlockIndex, genesis, pfork, pindexBest, Some(pindexNew))
      requires vDisconnect == Path(mapBlockIndex, genesis, pindexBest, pfork) && (vDisconnect != [] ==> pfork.Some?)
      requires vConnect == Reversed(Path(mapBlockIndex, genesis, Some(pindexNew), pfork))
      modifies this`pnext
      ensures LinksOk(mapBlockIndex, genesis, pnext, Some(pindexNew))
    {
      hide IsAncestor, LinksOk, Path, Reversed;
      Unlink(vDisconnect, pfork);
      Link(vConnect, pfork, pindexNew);
    }

    /** Clears the forward links along the branch that was disconnected. */
    method Unlink(vDisconnect: seq<BlockHash>, ghost pfork: Ptr)
      requires IndexOk() && Known(mapBlockIndex, pindexBest) && Known(mapBlockIndex, pfork)
      requires LinksOk(mapBlockIndex, genesis, pnext, pindexBest)
      requires IsAncestor(mapBlockIndex, genesis, pfork, pindexBest)
      requires vDisconnect == Path(mapBlockIndex, genesis, pindexBest, pfork) && (vDisconnect != [] ==> pfork.Some?)
      modifies this`pnext
      ensures LinksOk(mapBlockIndex, genesis, pnext, pfork)
    {
      hide IsAncestor, LinksOk, Path;
      PathFacts(mapBlockIndex, genesis, pindexBest, pfork);
      for i := 0 to |vDisconnect|
        invariant Known(mapBlockIndex, Stop(vDisconnect, pfork, i))
        invariant LinksOk(mapBlockIndex, genesis, pnext, Stop(vDisconnect, pfork, i))
      {
        UnlinkBest(mapBlockIndex, genesis, pnext, vDisconnect[i]);
        var pprev := Parent(mapBlockIndex, genesis, vDisconnect[i]);
        if pprev.Some? {
          pnext := pnext - {pprev.value};
        }
      }
    }

    /** Sets the forward links along the branch that was connected. */
    method Link(vConnect: seq<BlockHash>, ghost pfork: Ptr, ghost pindexNew: BlockHash)
      requires IndexOk() && pindexNew in mapBlockIndex && Known(mapBlockIndex, pfork)
      requires LinksOk(mapBlockIndex, genesis, pnext, pfork)
      requires IsAncestor(mapBlockIndex, genesis, pfork, Some(pindexNew))
      requires vConnect == Reversed(Path(mapBlockIndex, genesis, Some(pindexNew), pfork))
      modifies this`pnext
      ensures LinksOk(mapBlockIndex, genesis, pnext, Some(pindexNew))
    {
      hide IsAncestor, LinksOk, Path;
      ghost var path := Path(mapBlockIndex, genesis, Some(pindexNew), pfork);
      PathFacts(mapBlockIndex, genesis, Some(pindexNew), pfork);
      for i := 0 to |vConnect|
        invariant Known(mapBlockIndex, Stop(path, pfork, |path| - i))
        invariant LinksOk(mapBlockIndex, genesis, pnext, Stop(path, pfork, |path| - i))
      {
        assert vConnect[i] == path[|path| - 1 - i];
        LinkBest(mapBlockIndex, genesis, pnext, vConnect[i]);
        var pprev := Parent(mapBlockIndex, genesis, vConnect[i]);
        if pprev.Some? {
          pnext := pnext[pprev.value := vConnect[i]];
        }
      }
    }
  }
}

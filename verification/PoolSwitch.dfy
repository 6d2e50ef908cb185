/** What a switch of the best chain means for the memory pool: which transactions come back, which go, and why the rest
    can still spend what it spends. */
module PoolSwitch {
  import opened Options
  import opened Coins
  import opened Ledger
  import opened Fading
  import opened BlockTree
  import opened Availability
  import MemPool

  // ---- the transactions of a path ----

  function TxsOf(blocks: map<BlockHash, Block>, path: seq<BlockHash>): seq<Tx>
    requires forall i :: 0 <= i < |path| ==> path[i] in blocks
  {
    if path == [] then [] else TxsOf(blocks, path[..|path| - 1]) + blocks[path[|path| - 1]].vtx
  }

  /** Transactions of a disconnected block come back but for its coinbase, and of blocks that are old they do not. */
  predicate ComesBack(rules: Rules, nHeight: int, tx: Tx) {
    !tx.IsCoinBase() && nHeight > rules.scriptsFrom
  }

  function BackOf(rules: Rules, nHeight: int, txs: seq<Tx>): seq<Tx> {
    if txs == [] then []
    else
      var tx := txs[|txs| - 1];
      BackOf(rules, nHeight, txs[..|txs| - 1]) + if ComesBack(rules, nHeight, tx) then [tx] else []
  }

  function AllBack(rules: Rules, t: Tree, blocks: map<BlockHash, Block>, path: seq<BlockHash>): seq<Tx>
    requires forall i :: 0 <= i < |path| ==> path[i] in blocks && path[i] in t
  {
    if path == [] then []
    else
      var b := path[|path| - 1];
      AllBack(rules, t, blocks, path[..|path| - 1]) + BackOf(rules, t[b].nHeight, blocks[b].vtx)
  }

  lemma CreatesAppended(a: seq<Tx>, b: seq<Tx>, o: OutPoint)
    ensures Creates(a + b, o) <==> Creates(a, o) || Creates(b, o)
    ensures SpendsAny(a + b, o) <==> SpendsAny(a, o) || SpendsAny(b, o)
  {
    hide IsOutput, Takes;
    var c := a + b;
    forall k | 0 <= k < |c| ensures c[k] == if k < |a| then a[k] else b[k - |a|] {
    }
    forall k | 0 <= k < |b| ensures b[k] == c[|a| + k] {
    }
    if Creates(a, o) {
      var k :| 0 <= k < |a| && IsOutput(o, a[k]);
      assert IsOutput(o, c[k]);
    }
    if SpendsAny(a, o) {
      var k :| 0 <= k < |a| && Takes(a[k], o);
      assert Takes(c[k], o);
    }
  }

  lemma {:induction false} TxsOfPath(blocks: map<BlockHash, Block>, path: seq<BlockHash>, o: OutPoint)
    requires forall i :: 0 <= i < |path| ==> path[i] in blocks
    ensures Creates(TxsOf(blocks, path), o) <==> CreatesOn(blocks, path, o)
    ensures SpendsAny(TxsOf(blocks, path), o) <==> SpendsOn(blocks, path, o)
  {
    hide Creates, SpendsAny, CreatesOn, SpendsOn;
    if path != [] {
      var init, b := path[..|path| - 1], path[|path| - 1];
      TxsOfPath(blocks, init, o);
      CreatesAppended(TxsOf(blocks, init), blocks[b].vtx, o);
      OnLast(blocks, path, o);
    } else {
      NothingDone(o);
      NothingOn(blocks, o);
    }
  }

  lemma OnLast(blocks: map<BlockHash, Block>, path: seq<BlockHash>, o: OutPoint)
    requires path != [] && path[|path| - 1] in blocks
    ensures var init, b := path[..|path| - 1], path[|path| - 1];
            && (CreatesOn(blocks, path, o) <==> CreatesOn(blocks, init, o) || Creates(blocks[b].vtx, o))
            && (SpendsOn(blocks, path, o) <==> SpendsOn(blocks, init, o) || SpendsAny(blocks[b].vtx, o))
  {
    hide Creates, SpendsAny;
    var init := path[..|path| - 1];
    assert forall i :: 0 <= i < |init| ==> init[i] == path[i];
  }

  lemma OnReversed(blocks: map<BlockHash, Block>, path: seq<BlockHash>, o: OutPoint)
    ensures CreatesOn(blocks, Reversed(path), o) <==> CreatesOn(blocks, path, o)
    ensures SpendsOn(blocks, Reversed(path), o) <==> SpendsOn(blocks, path, o)
  {
    hide Creates, SpendsAny;
    var r := Reversed(path);
    forall i | 0 <= i < |path| ensures path[i] == r[|path| - 1 - i] {
    }
  }

  /** An output of a transaction that does not come back. */
  ghost predicate GivenUp(rules: Rules, t: Tree, blocks: map<BlockHash, Block>, path: seq<BlockHash>, o: OutPoint) {
    exists i, k :: && 0 <= i < |path| && path[i] in t && path[i] in blocks && 0 <= k < |blocks[path[i]].vtx|
                   && !ComesBack(rules, t[path[i]].nHeight, blocks[path[i]].vtx[k])
                   && IsOutput(o, blocks[path[i]].vtx[k])
  }

  lemma {:induction false} BackOrNot(rules: Rules, nHeight: int, txs: seq<Tx>, o: OutPoint)
    requires Creates(txs, o)
    ensures Creates(BackOf(rules, nHeight, txs), o)
         || exists k :: 0 <= k < |txs| && !ComesBack(rules, nHeight, txs[k]) && IsOutput(o, txs[k])
  {
    hide Creates, ComesBack, IsOutput;
    NothingDone(o);
    var k := |txs| - 1;
    CreatesLast(txs, o);
    CreatesAppended(BackOf(rules, nHeight, txs[..k]), if ComesBack(rules, nHeight, txs[k]) then [txs[k]] else [], o);
    if Creates(txs[..k], o) {
      BackOrNot(rules, nHeight, txs[..k], o);
    } else {
      CreatesOne(txs[k], o);
    }
  }

  lemma CreatesOne(tx: Tx, o: OutPoint)
    requires IsOutput(o, tx)
    ensures Creates([tx], o)
  {
    assert IsOutput(o, [tx][0]);
  }

  lemma {:induction false} BackOrGivenUp(rules: Rules, t: Tree, blocks: map<BlockHash, Block>, path: seq<BlockHash>,
                                         o: OutPoint)
    requires forall i :: 0 <= i < |path| ==> path[i] in blocks && path[i] in t
    requires CreatesOn(blocks, path, o)
    ensures Creates(AllBack(rules, t, blocks, path), o) || GivenUp(rules, t, blocks, path, o)
  {
    hide Creates, CreatesOn, ComesBack, IsOutput;
    NothingOn(blocks, o);
    var init, b := path[..|path| - 1], path[|path| - 1];
    OnLast(blocks, path, o);
    CreatesAppended(AllBack(rules, t, blocks, init), BackOf(rules, t[b].nHeight, blocks[b].vtx), o);
    if CreatesOn(blocks, init, o) {
      BackOrGivenUp(rules, t, blocks, init, o);
    } else {
      BackOrNot(rules, t[b].nHeight, blocks[b].vtx, o);
    }
  }

  // ---- the pool over a switch ----

  /** Outputs of transactions that are disconnected and do not come back: of coinbases, and of all in old blocks. */
  ghost predicate Abandoned(rules: Rules, t: Tree, genesis: BlockHash, blocks: map<BlockHash, Block>, best: Ptr,
                            pnew: Ptr, o: OutPoint)
    requires TreeOk(t, genesis) && Known(t, best) && Known(t, pnew)
  {
    exists b, k :: && b in t && b in blocks && 0 <= k < |blocks[b].vtx| && OffBranch(t, genesis, best, pnew, b)
                   && !ComesBack(rules, t[b].nHeight, blocks[b].vtx[k]) && IsOutput(o, blocks[b].vtx[k])
  }

  ghost predicate OffBranch(t: Tree, genesis: BlockHash, best: Ptr, pnew: Ptr, b: BlockHash)
    requires TreeOk(t, genesis) && Known(t, best) && Known(t, pnew)
  {
    IsAncestor(t, genesis, Some(b), best) && !IsAncestor(t, genesis, Some(b), pnew)
  }

  /** The transaction is in a block that the switch connects, or in conflict with one there. */
  ghost predicate Leaving(t: Tree, genesis: BlockHash, blocks: map<BlockHash, Block>, best: Ptr, pnew: Ptr, x: Tx)
    requires TreeOk(t, genesis) && Known(t, best) && Known(t, pnew)
  {
    exists b, k :: && b in t && b in blocks && 0 <= k < |blocks[b].vtx| && OffBranch(t, genesis, pnew, best, b)
                   && (x.txid == blocks[b].vtx[k].txid || !MemPool.NoConflict(x, blocks[b].vtx[k]))
  }

  /** Those of them that are not there on the new branch, and that a pool transaction spends which does not leave. */
  ghost function LeftBehind(rules: Rules, t: Tree, genesis: BlockHash, blocks: map<BlockHash, Block>, best: Ptr,
                            pnew: Ptr, pool: map<TxId, Tx>): iset<OutPoint>
    requires TreeOk(t, genesis) && Known(t, best) && Known(t, pnew) && t.Keys <= blocks.Keys
  {
    iset o: OutPoint | && Abandoned(rules, t, genesis, blocks, best, pnew, o)
                       && ThereNoMore(Replay(rules, t, genesis, blocks, pnew), o)
                       && SpentByRest(t, genesis, blocks, best, pnew, pool, o)
  }

  ghost predicate ThereNoMore(u: Option<Utxo>, o: OutPoint) {
    u.Some? ==> !Available(u.value, o)
  }

  ghost predicate SpentByRest(t: Tree, genesis: BlockHash, blocks: map<BlockHash, Block>, best: Ptr, pnew: Ptr,
                              pool: map<TxId, Tx>, o: OutPoint)
    requires TreeOk(t, genesis) && Known(t, best) && Known(t, pnew)
  {
    exists x, n :: && x in pool && 0 <= n < |pool[x].vin| && pool[x].vin[n].prevout == o
                   && !Leaving(t, genesis, blocks, best, pnew, pool[x])
  }

  /** What the pool's transactions spent on the old branch is there on the new one, or comes back, or is made or spent
      by the new branch, or is left behind, or its spender leaves; and what that branch makes and does not spend is
      there. */
  lemma {:induction false} PendingAfterSwitch(rules: Rules, t: Tree, genesis: BlockHash, blocks: map<BlockHash, Block>,
                                              best: Ptr, fork: Ptr, pnew: Ptr, pool: map<TxId, Tx>)
    requires TreeOk(t, genesis) && Known(t, best) && Known(t, pnew) && Known(t, fork) && fork.Some?
    requires t.Keys <= blocks.Keys
    requires IsFork(t, genesis, best, fork, pnew)
    requires Replay(rules, t, genesis, blocks, best).Some? && Replay(rules, t, genesis, blocks, pnew).Some?
    requires MemPool.Supported(pool, Replay(rules, t, genesis, blocks, best).value)
    ensures var vDisconnect, vConnect := Path(t, genesis, best, fork), Reversed(Path(t, genesis, pnew, fork));
            var u := Replay(rules, t, genesis, blocks, pnew).value;
            && (forall i :: 0 <= i < |vDisconnect| ==> vDisconnect[i] in blocks && vDisconnect[i] in t)
            && (forall i :: 0 <= i < |vConnect| ==> vConnect[i] in blocks)
            && MemPool.Pending(pool, u, AllBack(rules, t, blocks, vDisconnect), TxsOf(blocks, vConnect),
                               LeftBehind(rules, t, genesis, blocks, best, pnew, pool))
            && MemPool.Settled(u, TxsOf(blocks, vConnect))
  {
    hide Replay, IsAncestor, Path, Reversed, Available, CreatesOn, SpendsOn, Creates, SpendsAny, GivenUp, Abandoned,
         OffBranch, Leaving, MemPool.Leaves;
    ReplayPrefix(rules, t, genesis, blocks, fork, best);
    PathFacts(t, genesis, best, fork);
    PathFacts(t, genesis, pnew, fork);
    var vDisconnect, path := Path(t, genesis, best, fork), Path(t, genesis, pnew, fork);
    ReversedKnown(blocks, path);
    var vConnect := Reversed(path);
    var u0, u := Replay(rules, t, genesis, blocks, best).value, Replay(rules, t, genesis, blocks, pnew).value;
    var vDelete, vResurrect := TxsOf(blocks, vConnect), AllBack(rules, t, blocks, vDisconnect);
    var gone := LeftBehind(rules, t, genesis, blocks, best, pnew, pool);
    forall o
      ensures Creates(vDelete, o) <==> CreatesOn(blocks, path, o)
      ensures SpendsAny(vDelete, o) <==> SpendsOn(blocks, path, o)
    {
      TxsOfPath(blocks, vConnect, o);
      OnReversed(blocks, path, o);
    }
    forall x, n | x in pool && 0 <= n < |pool[x].vin|
      ensures MemPool.Claimed(pool, u, vResurrect, vDelete, gone, pool[x], pool[x].vin[n].prevout)
    {
      var o := pool[x].vin[n].prevout;
      assert MemPool.InputBacked(pool, u0, iset{}, o);
      StillBacked(rules, t, genesis, blocks, best, fork, pnew, vDisconnect, pool, o);
      if Leaving(t, genesis, blocks, best, pnew, pool[x]) {
        LeavingLeaves(t, genesis, blocks, best, fork, pnew, pool[x], vConnect);
      } else if SpendsAny(vDelete, o) {
        MemPool.RivalLeaves(pool[x], n, vDelete);
      } else {
        assert SpentByRest(t, genesis, blocks, best, pnew, pool, o);
      }
    }
    forall o | Creates(vDelete, o) && !SpendsAny(vDelete, o) ensures Available(u, o) {
      AlongPath(rules, t, genesis, blocks, pnew, fork, o);
    }
  }

  ghost predicate IsFork(t: Tree, genesis: BlockHash, best: Ptr, fork: Ptr, pnew: Ptr)
    requires TreeOk(t, genesis) && Known(t, best) && Known(t, pnew)
  {
    && Common(t, genesis, fork, best, pnew) && Known(t, fork)
    && forall a :: Common(t, genesis, a, best, pnew) ==> IsAncestor(t, genesis, a, fork)
  }

  /** What becomes of one output that was there on the old branch or in the pool. */
  lemma {:induction false} StillBacked(rules: Rules, t: Tree, genesis: BlockHash, blocks: map<BlockHash, Block>,
                                       best: Ptr, fork: Ptr, pnew: Ptr, vDisconnect: seq<BlockHash>,
                                       pool: map<TxId, Tx>, o: OutPoint)
    requires TreeOk(t, genesis) && Known(t, best) && Known(t, pnew) && Known(t, fork) && fork.Some?
    requires t.Keys <= blocks.Keys
    requires IsFork(t, genesis, best, fork, pnew) && vDisconnect == Path(t, genesis, best, fork)
    requires forall i :: 0 <= i < |vDisconnect| ==> vDisconnect[i] in blocks && vDisconnect[i] in t
    requires Replay(rules, t, genesis, blocks, best).Some? && Replay(rules, t, genesis, blocks, pnew).Some?
    requires Replay(rules, t, genesis, blocks, fork).Some?
    requires MemPool.Backed(pool, Replay(rules, t, genesis, blocks, best).value, o)
    ensures || MemPool.Backed(pool, Replay(rules, t, genesis, blocks, pnew).value, o)
            || SpendsOn(blocks, Path(t, genesis, pnew, fork), o)
            || Creates(AllBack(rules, t, blocks, vDisconnect), o)
            || Abandoned(rules, t, genesis, blocks, best, pnew, o)
  {
    hide Replay, IsAncestor, Path, Available, CreatesOn, SpendsOn, Creates, SpendsAny, GivenUp, Abandoned;
    AlongPath(rules, t, genesis, blocks, best, fork, o);
    AlongPath(rules, t, genesis, blocks, pnew, fork, o);
    if CreatesOn(blocks, vDisconnect, o) {
      BackOrGivenUp(rules, t, blocks, vDisconnect, o);
      if GivenUp(rules, t, blocks, vDisconnect, o) {
        GivenUpOff(rules, t, genesis, blocks, best, fork, pnew, o);
      }
    }
  }

  lemma {:induction false} GivenUpOff(rules: Rules, t: Tree, genesis: BlockHash, blocks: map<BlockHash, Block>,
                                      best: Ptr, fork: Ptr, pnew: Ptr, o: OutPoint)
    requires TreeOk(t, genesis) && Known(t, best) && Known(t, pnew) && Known(t, fork)
    requires IsFork(t, genesis, best, fork, pnew) && GivenUp(rules, t, blocks, Path(t, genesis, best, fork), o)
    ensures Abandoned(rules, t, genesis, blocks, best, pnew, o)
  {
    hide IsAncestor, Path, IsOutput, ComesBack;
    var path := Path(t, genesis, best, fork);
    var i, k :| && 0 <= i < |path| && path[i] in t && path[i] in blocks && 0 <= k < |blocks[path[i]].vtx|
                && !ComesBack(rules, t[path[i]].nHeight, blocks[path[i]].vtx[k]) && IsOutput(o, blocks[path[i]].vtx[k]);
    PathHolds(t, genesis, best, fork, path[i]);
    assert !Common(t, genesis, Some(path[i]), best, pnew);
    assert OffBranch(t, genesis, best, pnew, path[i]);
  }

  lemma ReversedKnown(blocks: map<BlockHash, Block>, path: seq<BlockHash>)
    requires forall i :: 0 <= i < |path| ==> path[i] in blocks
    ensures forall i :: 0 <= i < |Reversed(path)| ==> Reversed(path)[i] in blocks
  {
  }

  lemma {:induction false} LeavingLeaves(t: Tree, genesis: BlockHash, blocks: map<BlockHash, Block>, best: Ptr,
                                         fork: Ptr, pnew: Ptr, x: Tx, vConnect: seq<BlockHash>)
    requires TreeOk(t, genesis) && Known(t, best) && Known(t, pnew) && Known(t, fork)
    requires IsFork(t, genesis, best, fork, pnew) && vConnect == Reversed(Path(t, genesis, pnew, fork))
    requires forall i :: 0 <= i < |vConnect| ==> vConnect[i] in blocks
    requires Leaving(t, genesis, blocks, best, pnew, x)
    ensures MemPool.Leaves(x, TxsOf(blocks, vConnect))
  {
    hide IsAncestor, Path, TxsOf, MemPool.NoConflict, OffBranch;
    var b, k :| && b in t && b in blocks && 0 <= k < |blocks[b].vtx| && OffBranch(t, genesis, pnew, best, b)
                && (x.txid == blocks[b].vtx[k].txid || !MemPool.NoConflict(x, blocks[b].vtx[k]));
    var path := Path(t, genesis, pnew, fork);
    OnPath(t, genesis, best, fork, pnew, b);
    var i :| 0 <= i < |path| && path[i] == b;
    assert vConnect[|path| - 1 - i] == b;
    var j := InTxsOf(blocks, vConnect, |path| - 1 - i, k);
  }

  lemma {:induction false} OnPath(t: Tree, genesis: BlockHash, best: Ptr, fork: Ptr, pnew: Ptr, b: BlockHash)
    requires TreeOk(t, genesis) && Known(t, best) && Known(t, pnew) && Known(t, fork)
    requires IsFork(t, genesis, best, fork, pnew)
    ensures OffBranch(t, genesis, pnew, best, b) <==> b in Path(t, genesis, pnew, fork)
    ensures OffBranch(t, genesis, best, pnew, b) <==> b in Path(t, genesis, best, fork)
  {
    hide IsAncestor, Path;
    PathHolds(t, genesis, pnew, fork, b);
    PathHolds(t, genesis, best, fork, b);
    assert Common(t, genesis, Some(b), best, pnew) ==> IsAncestor(t, genesis, Some(b), fork);
    if IsAncestor(t, genesis, Some(b), fork) {
      AncestorTransitive(t, genesis, Some(b), fork, best);
      AncestorTransitive(t, genesis, Some(b), fork, pnew);
    }
  }

  // ---- what stays ----

  /** The switch neither moves the transaction, nor anything it spends, nor connects a rival. */
  ghost predicate Calm(rules: Rules, t: Tree, genesis: BlockHash, blocks: map<BlockHash, Block>, best: Ptr, pnew: Ptr,
                       x: Tx)
    requires TreeOk(t, genesis) && Known(t, best) && Known(t, pnew)
  {
    && !Leaving(t, genesis, blocks, best, pnew, x)
    && forall b, k :: && b in t && b in blocks && 0 <= k < |blocks[b].vtx| && OffBranch(t, genesis, best, pnew, b)
                      && ComesBack(rules, t[b].nHeight, blocks[b].vtx[k]) ==>
                        MemPool.ApartFrom(x, blocks[b].vtx[k])
  }

  /** The pool transactions that are calm, with all that they descend from in the pool. */
  ghost function Staying(rules: Rules, t: Tree, genesis: BlockHash, blocks: map<BlockHash, Block>, best: Ptr, pnew: Ptr,
                         pool: map<TxId, Tx>, rank: MemPool.Rank): set<TxId>
    requires TreeOk(t, genesis) && Known(t, best) && Known(t, pnew)
  {
    set x | && x in pool && Calm(rules, t, genesis, blocks, best, pnew, pool[x])
            && forall q :: q in pool && MemPool.Descends(pool, rank, x, pool[q]) ==>
                             Calm(rules, t, genesis, blocks, best, pnew, pool[q])
  }

  lemma {:induction false} StayingUntouched(rules: Rules, t: Tree, genesis: BlockHash, blocks: map<BlockHash, Block>,
                                            best: Ptr, fork: Ptr, pnew: Ptr, pool: map<TxId, Tx>, rank: MemPool.Rank,
                                            vDisconnect: seq<BlockHash>, vConnect: seq<BlockHash>)
    requires TreeOk(t, genesis) && Known(t, best) && Known(t, pnew) && Known(t, fork) && MemPool.Ranked(pool, rank)
    requires IsFork(t, genesis, best, fork, pnew)
    requires vDisconnect == Path(t, genesis, best, fork) && vConnect == Reversed(Path(t, genesis, pnew, fork))
    requires forall i :: 0 <= i < |vDisconnect| ==> vDisconnect[i] in blocks && vDisconnect[i] in t
    requires forall i :: 0 <= i < |vConnect| ==> vConnect[i] in blocks && vConnect[i] in t
    ensures MemPool.Untouched(pool, Staying(rules, t, genesis, blocks, best, pnew, pool, rank),
                              AllBack(rules, t, blocks, vDisconnect), TxsOf(blocks, vConnect))
  {
    hide IsAncestor, Path, AllBack, TxsOf, Calm, Reversed, MemPool.Descends, MemPool.Spends, MemPool.Ranked,
         MemPool.Undisturbed;
    var kept := Staying(rules, t, genesis, blocks, best, pnew, pool, rank);
    forall x, p | x in kept && p in pool && MemPool.Spends(pool[x], pool[p]) ensures p in kept {
      MemPool.ParentFirst(pool, rank, x, p);
    }
    forall x | x in kept
      ensures MemPool.Undisturbed(pool[x], AllBack(rules, t, blocks, vDisconnect), TxsOf(blocks, vConnect))
    {
      CalmUndisturbed(rules, t, genesis, blocks, best, fork, pnew, pool[x], vDisconnect, vConnect);
    }
  }

  lemma {:induction false} CalmUndisturbed(rules: Rules, t: Tree, genesis: BlockHash, blocks: map<BlockHash, Block>,
                                           best: Ptr, fork: Ptr, pnew: Ptr, x: Tx, vDisconnect: seq<BlockHash>,
                                           vConnect: seq<BlockHash>)
    requires TreeOk(t, genesis) && Known(t, best) && Known(t, pnew) && Known(t, fork)
    requires IsFork(t, genesis, best, fork, pnew)
    requires vDisconnect == Path(t, genesis, best, fork) && vConnect == Reversed(Path(t, genesis, pnew, fork))
    requires forall i :: 0 <= i < |vDisconnect| ==> vDisconnect[i] in blocks && vDisconnect[i] in t
    requires forall i :: 0 <= i < |vConnect| ==> vConnect[i] in blocks && vConnect[i] in t
    requires Calm(rules, t, genesis, blocks, best, pnew, x)
    ensures MemPool.Undisturbed(x, AllBack(rules, t, blocks, vDisconnect), TxsOf(blocks, vConnect))
  {
    hide IsAncestor, Path, AllBack, TxsOf, ComesBack, OffBranch, MemPool.ApartFrom, MemPool.NoConflict;
    var vResurrect, vDelete := AllBack(rules, t, blocks, vDisconnect), TxsOf(blocks, vConnect);
    forall j | 0 <= j < |vResurrect| ensures MemPool.ApartFrom(x, vResurrect[j]) {
      var i, k := OfAllBack(rules, t, blocks, vDisconnect, j);
      OnPath(t, genesis, best, fork, pnew, vDisconnect[i]);
    }
    forall j | 0 <= j < |vDelete| ensures x.txid != vDelete[j].txid && MemPool.NoConflict(x, vDelete[j]) {
      var i, k := OfTxsOf(blocks, vConnect, j);
      assert vConnect[i] == Path(t, genesis, pnew, fork)[|vConnect| - 1 - i];
      OnPath(t, genesis, best, fork, pnew, vConnect[i]);
    }
  }

  lemma {:induction false} OfTxsOf(blocks: map<BlockHash, Block>, path: seq<BlockHash>, j: nat)
    returns (i: nat, k: nat)
    requires (forall i :: 0 <= i < |path| ==> path[i] in blocks) && j < |TxsOf(blocks, path)|
    ensures i < |path| && k < |blocks[path[i]].vtx| && TxsOf(blocks, path)[j] == blocks[path[i]].vtx[k]
    decreases |path|
  {
    var last := |path| - 1;
    var init := TxsOf(blocks, path[..last]);
    if j < |init| {
      i, k := OfTxsOf(blocks, path[..last], j);
    } else {
      i, k := last, j - |init|;
    }
  }

  lemma {:induction false} OfBackOf(rules: Rules, nHeight: int, txs: seq<Tx>, j: nat) returns (k: nat)
    requires j < |BackOf(rules, nHeight, txs)|
    ensures k < |txs| && BackOf(rules, nHeight, txs)[j] == txs[k] && ComesBack(rules, nHeight, txs[k])
    decreases |txs|
  {
    var last := |txs| - 1;
    if j < |BackOf(rules, nHeight, txs[..last])| {
      k := OfBackOf(rules, nHeight, txs[..last], j);
    } else {
      k := last;
    }
  }

  lemma {:induction false} OfAllBack(rules: Rules, t: Tree, blocks: map<BlockHash, Block>, path: seq<BlockHash>, j: nat)
    returns (i: nat, k: nat)
    requires forall i :: 0 <= i < |path| ==> path[i] in blocks && path[i] in t
    requires j < |AllBack(rules, t, blocks, path)|
    ensures i < |path| && k < |blocks[path[i]].vtx| && AllBack(rules, t, blocks, path)[j] == blocks[path[i]].vtx[k]
    ensures ComesBack(rules, t[path[i]].nHeight, blocks[path[i]].vtx[k])
    decreases |path|
  {
    hide ComesBack, BackOf;
    var last := |path| - 1;
    var init := AllBack(rules, t, blocks, path[..last]);
    if j < |init| {
      i, k := OfAllBack(rules, t, blocks, path[..last], j);
    } else {
      i := last;
      k := OfBackOf(rules, t[path[last]].nHeight, blocks[path[last]].vtx, j - |init|);
    }
  }

  // ---- when something is missed ----

  /** A transaction with this hash is disconnected by the switch and may come back. */
  ghost predicate MayComeBack(rules: Rules, t: Tree, genesis: BlockHash, blocks: map<BlockHash, Block>, best: Ptr,
                              pnew: Ptr, txid: TxId)
    requires TreeOk(t, genesis) && Known(t, best) && Known(t, pnew)
  {
    exists b, k :: && b in t && b in blocks && 0 <= k < |blocks[b].vtx| && OffBranch(t, genesis, best, pnew, b)
                   && ComesBack(rules, t[b].nHeight, blocks[b].vtx[k]) && blocks[b].vtx[k].txid == txid
  }

  /** So the pool holds afterwards what it held before, and what may come back. */
  lemma {:induction false} HeldOrBack(rules: Rules, t: Tree, genesis: BlockHash, blocks: map<BlockHash, Block>,
                                      best: Ptr, fork: Ptr, pnew: Ptr, pool: map<TxId, Tx>, vDisconnect: seq<BlockHash>,
                                      after: map<TxId, Tx>)
    requires TreeOk(t, genesis) && Known(t, best) && Known(t, pnew) && Known(t, fork)
    requires IsFork(t, genesis, best, fork, pnew) && vDisconnect == Path(t, genesis, best, fork)
    requires forall i :: 0 <= i < |vDisconnect| ==> vDisconnect[i] in blocks && vDisconnect[i] in t
    requires MemPool.FromBefore(pool, after, AllBack(rules, t, blocks, vDisconnect))
    ensures forall x <- after :: x in pool || MayComeBack(rules, t, genesis, blocks, best, pnew, x)
  {
    hide IsAncestor, Path, AllBack, ComesBack, OffBranch;
    forall x | x in after && x !in pool ensures MayComeBack(rules, t, genesis, blocks, best, pnew, x) {
      var vResurrect := AllBack(rules, t, blocks, vDisconnect);
      var j :| 0 <= j < |vResurrect| && vResurrect[j].txid == x;
      var i, k := OfAllBack(rules, t, blocks, vDisconnect, j);
      OnPath(t, genesis, best, fork, pnew, vDisconnect[i]);
    }
  }

  /** A transaction that stays spends an output that is left behind, and whose transaction is not to be in the pool. */
  ghost predicate Missed(rules: Rules, t: Tree, genesis: BlockHash, blocks: map<BlockHash, Block>, best: Ptr, pnew: Ptr,
                         pool: map<TxId, Tx>, rank: MemPool.Rank, x: TxId, n: nat)
    requires TreeOk(t, genesis) && Known(t, best) && Known(t, pnew) && t.Keys <= blocks.Keys
  {
    && x in pool && x in Staying(rules, t, genesis, blocks, best, pnew, pool, rank) && n < |pool[x].vin|
    && pool[x].vin[n].prevout in LeftBehind(rules, t, genesis, blocks, best, pnew, pool)
    && pool[x].vin[n].prevout.hash !in pool
    && !MayComeBack(rules, t, genesis, blocks, best, pnew, pool[x].vin[n].prevout.hash)
  }

  /** Then it is missed after the switch. */
  lemma {:induction false} MissedAfter(rules: Rules, t: Tree, genesis: BlockHash, blocks: map<BlockHash, Block>,
                                       best: Ptr, pnew: Ptr, pool: map<TxId, Tx>, rank: MemPool.Rank, x: TxId, n: nat,
                                       after: map<TxId, Tx>)
    requires TreeOk(t, genesis) && Known(t, best) && Known(t, pnew) && t.Keys <= blocks.Keys
    requires Replay(rules, t, genesis, blocks, pnew).Some?
    requires Missed(rules, t, genesis, blocks, best, pnew, pool, rank, x, n) && x in after && after[x] == pool[x]
    requires forall x <- after :: x in pool || MayComeBack(rules, t, genesis, blocks, best, pnew, x)
    ensures !MemPool.Supported(after, Replay(rules, t, genesis, blocks, pnew).value)
  {
    hide Replay, Abandoned, SpentByRest, Staying, MayComeBack, MemPool.Supported;
    MemPool.Stranded(after, Replay(rules, t, genesis, blocks, pnew).value, x, n);
  }

  /** A coinbase is never in the pool and never comes back, where a hash stands for one transaction. */
  lemma CoinbaseNeverBack(rules: Rules, t: Tree, genesis: BlockHash, blocks: map<BlockHash, Block>, best: Ptr,
                          pnew: Ptr, pool: map<TxId, Tx>, content: TxId -> Tx, coinbase: Tx)
    requires TreeOk(t, genesis) && Known(t, best) && Known(t, pnew)
    requires coinbase.IsCoinBase() && content(coinbase.txid) == coinbase
    requires forall x <- pool :: pool[x] == content(x) && !pool[x].IsCoinBase()
    requires forall b, k :: b in blocks && 0 <= k < |blocks[b].vtx| ==>
               content(blocks[b].vtx[k].txid) == blocks[b].vtx[k]
    ensures coinbase.txid !in pool && !MayComeBack(rules, t, genesis, blocks, best, pnew, coinbase.txid)
  {
  }

  // ---- which blocks a path holds ----

  /** The path down to the fork holds just the blocks that are not on the other branch. */
  lemma {:induction false} PathHolds(t: Tree, genesis: BlockHash, p: Ptr, a: Ptr, b: BlockHash)
    requires TreeOk(t, genesis) && Known(t, p) && IsAncestor(t, genesis, a, p) && Known(t, a)
    ensures b in Path(t, genesis, p, a) <==> IsAncestor(t, genesis, Some(b), p) && !IsAncestor(t, genesis, Some(b), a)
    decreases Height(t, p) + 1
  {
    if a != p {
      PathHolds(t, genesis, Parent(t, genesis, p.value), a, b);
      AncestorHeight(t, genesis, a, Parent(t, genesis, p.value));
      if IsAncestor(t, genesis, p, a) {
        AncestorHeight(t, genesis, p, a);
      }
    }
  }

  lemma {:induction false} BelowFork(t: Tree, genesis: BlockHash, best: Ptr, fork: Ptr, pnew: Ptr, b: BlockHash)
    requires TreeOk(t, genesis) && Known(t, best) && Known(t, pnew) && Known(t, fork)
    requires IsFork(t, genesis, best, fork, pnew)
    requires OffBranch(t, genesis, pnew, best, b)
    ensures !IsAncestor(t, genesis, Some(b), fork)
  {
    if IsAncestor(t, genesis, Some(b), fork) {
      AncestorTransitive(t, genesis, Some(b), fork, best);
    }
  }

  // ---- up to versions ----

  /** What can be spent does not depend on what has been lost of records in files or the database. */
  lemma ShownAlike(live: Utxo, u: Utxo, pool: map<TxId, Tx>, vResurrect: seq<Tx>, vDelete: seq<Tx>,
                   gone: iset<OutPoint>)
    requires Shows(live, u)
    ensures MemPool.SupportedBut(pool, live, gone) <==> MemPool.SupportedBut(pool, u, gone)
    ensures MemPool.Pending(pool, live, vResurrect, vDelete, gone) <==>
            MemPool.Pending(pool, u, vResurrect, vDelete, gone)
    ensures MemPool.Settled(live, vDelete) <==> MemPool.Settled(u, vDelete)
  {
    hide Faded, Available, Creates, SpendsAny;
    var lost :| live == Faded(u, lost);
    forall o ensures Available(live, o) == Available(u, o) {
      FadedAvailable(u, lost, o);
    }
  }

  lemma {:induction false} InTxsOf(blocks: map<BlockHash, Block>, path: seq<BlockHash>, i: nat, k: nat) returns (j: nat)
    requires (forall i :: 0 <= i < |path| ==> path[i] in blocks) && i < |path| && k < |blocks[path[i]].vtx|
    ensures j < |TxsOf(blocks, path)| && TxsOf(blocks, path)[j] == blocks[path[i]].vtx[k]
    decreases |path|
  {
    var last := |path| - 1;
    if i == last {
      j := |TxsOf(blocks, path[..last])| + k;
    } else {
      j := InTxsOf(blocks, path[..last], i, k);
    }
  }
}

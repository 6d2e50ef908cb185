/** Which outputs can be spent: exactly those that were made and not spent, over a block and over a branch. */
module Availability {
  import opened Coins
  import opened Ledger
  import opened BlockTree

  predicate IsOutput(o: OutPoint, p: Tx) {
    o.hash == p.txid && o.n < |p.vout|
  }

  /** The transaction spends the output; a coinbase spends none. */
  predicate Takes(tx: Tx, o: OutPoint) {
    !tx.IsCoinBase() && Consumes(tx.vin, o)
  }

  predicate Creates(txs: seq<Tx>, o: OutPoint) {
    exists k :: 0 <= k < |txs| && IsOutput(o, txs[k])
  }

  predicate SpendsAny(txs: seq<Tx>, o: OutPoint) {
    exists k :: 0 <= k < |txs| && Takes(txs[k], o)
  }

  lemma CreatesLast(txs: seq<Tx>, o: OutPoint)
    requires txs != []
    ensures Creates(txs, o) <==> Creates(txs[..|txs| - 1], o) || IsOutput(o, txs[|txs| - 1])
    ensures SpendsAny(txs, o) <==> SpendsAny(txs[..|txs| - 1], o) || Takes(txs[|txs| - 1], o)
  {
    var init := txs[..|txs| - 1];
    assert forall k :: 0 <= k < |init| ==> init[k] == txs[k];
    if Creates(init, o) {
      var k :| 0 <= k < |init| && IsOutput(o, init[k]);
      assert IsOutput(o, txs[k]);
    }
    if SpendsAny(init, o) {
      var k :| 0 <= k < |init| && Takes(init[k], o);
      assert Takes(txs[k], o);
    }
  }

  lemma ConnectTxAvailable(rules: Rules, p: Progress, tx: Tx, nHeight: nat, nTime: nat, o: OutPoint)
    requires Sound(p.u) && tx.txid !in p.u && CheckTransaction(tx)
    requires ConnectTx(rules, p, tx, nHeight, nTime).Some?
    ensures Available(ConnectTx(rules, p, tx, nHeight, nTime).value.u, o)
       <==> (Available(p.u, o) && !Takes(tx, o)) || IsOutput(o, tx)
    ensures Takes(tx, o) ==> Available(p.u, o)
  {
    hide SpendInputs, CheckInputs, PrevOuts, ValueIn, ValueOut, ScriptsOk;
    var spent := p.u;
    if !tx.IsCoinBase() {
      SpendInputsFacts(p.u, tx.vin);
      spent := SpendInputs(p.u, tx.vin).value.0;
    }
    assert o.hash == tx.txid && o.n < |tx.vout| ==> !tx.vout[o.n].IsNull();
  }

  lemma {:induction false} ConnectTxsAvailable(rules: Rules, u: Utxo, txs: seq<Tx>, nHeight: nat, nTime: nat,
                                               o: OutPoint)
    requires Sound(u) && nHeight >= 1 && NoOverwrite(u, txs)
    requires txs != [] ==> ShapeOk(txs)
    requires ConnectTxs(rules, u, txs, nHeight, nTime).Some?
    ensures Available(ConnectTxs(rules, u, txs, nHeight, nTime).value.u, o)
       <==> (Available(u, o) || Creates(txs, o)) && !SpendsAny(txs, o)
    ensures SpendsAny(txs, o) ==> Available(u, o) || Creates(txs, o)
  {
    hide ConnectTx, Sound, CheckTransaction, Takes, SpendsAny, Creates, Available;
    if txs != [] {
      var k := |txs| - 1;
      var tx, init := txs[k], txs[..k];
      assert forall i :: 0 <= i < k ==> init[i] == txs[i];
      ConnectTxsAvailable(rules, u, init, nHeight, nTime, o);
      ConnectTxsFacts(rules, u, init, nHeight, nTime);
      ConnectTxAvailable(rules, ConnectTxs(rules, u, init, nHeight, nTime).value, tx, nHeight, nTime, o);
      CreatesLast(txs, o);
      if IsOutput(o, tx) {
        NewOutput(u, txs, o);
      }
    } else {
      NothingDone(o);
    }
  }

  lemma NothingDone(o: OutPoint)
    ensures !Creates([], o) && !SpendsAny([], o)
  {
  }

  lemma NewOutput(u: Utxo, txs: seq<Tx>, o: OutPoint)
    requires txs != [] && ShapeOk(txs) && NoOverwrite(u, txs) && IsOutput(o, txs[|txs| - 1])
    ensures !Available(u, o) && !Creates(txs[..|txs| - 1], o)
  {
  }

  /** Exactly those outputs can be spent after a block that could before or that it has made, and that it has not
      spent. */
  lemma ConnectAvailable(rules: Rules, u: Utxo, block: Block, nHeight: nat, o: OutPoint)
    requires Sound(u) && nHeight >= 1 && Connect(rules, u, block, nHeight).Some?
    ensures Available(Connect(rules, u, block, nHeight).value.0, o)
       <==> (Available(u, o) || Creates(block.vtx, o)) && !SpendsAny(block.vtx, o)
  {
    ConnectTxsAvailable(rules, u, block.vtx, nHeight, block.nTime, o);
  }

  // ---- over a branch ----

  ghost predicate CreatesOn(blocks: map<BlockHash, Block>, path: seq<BlockHash>, o: OutPoint) {
    exists i :: 0 <= i < |path| && path[i] in blocks && Creates(blocks[path[i]].vtx, o)
  }

  ghost predicate SpendsOn(blocks: map<BlockHash, Block>, path: seq<BlockHash>, o: OutPoint) {
    exists i :: 0 <= i < |path| && path[i] in blocks && SpendsAny(blocks[path[i]].vtx, o)
  }

  lemma OnFirst(blocks: map<BlockHash, Block>, b: BlockHash, rest: seq<BlockHash>, o: OutPoint)
    requires b in blocks
    ensures CreatesOn(blocks, [b] + rest, o) <==> Creates(blocks[b].vtx, o) || CreatesOn(blocks, rest, o)
    ensures SpendsOn(blocks, [b] + rest, o) <==> SpendsAny(blocks[b].vtx, o) || SpendsOn(blocks, rest, o)
  {
    hide Creates, SpendsAny;
    var path := [b] + rest;
    assert path[0] == b && forall i :: 0 <= i < |rest| ==> path[i + 1] == rest[i];
    if CreatesOn(blocks, rest, o) {
      var i :| 0 <= i < |rest| && rest[i] in blocks && Creates(blocks[rest[i]].vtx, o);
      assert Creates(blocks[path[i + 1]].vtx, o);
    }
    if SpendsOn(blocks, rest, o) {
      var i :| 0 <= i < |rest| && rest[i] in blocks && SpendsAny(blocks[rest[i]].vtx, o);
      assert SpendsAny(blocks[path[i + 1]].vtx, o);
    }
  }

  /** Along a branch nothing becomes available but what its blocks make, and of that and of what was available before
      nothing goes but what they spend. */
  lemma {:induction false} AlongPath(rules: Rules, t: Tree, genesis: BlockHash, blocks: map<BlockHash, Block>, p: Ptr,
                                     a: Ptr, o: OutPoint)
    requires TreeOk(t, genesis) && Known(t, p) && t.Keys <= blocks.Keys && IsAncestor(t, genesis, a, p) && a.Some?
    requires Known(t, a)
    requires Replay(rules, t, genesis, blocks, p).Some? && Replay(rules, t, genesis, blocks, a).Some?
    ensures var path := Path(t, genesis, p, a);
            var u, v := Replay(rules, t, genesis, blocks, a).value, Replay(rules, t, genesis, blocks, p).value;
            && (Available(v, o) ==> Available(u, o) || CreatesOn(blocks, path, o))
            && (Available(u, o) || CreatesOn(blocks, path, o) ==> Available(v, o) || SpendsOn(blocks, path, o))
    decreases Height(t, p) + 1
  {
    hide Connect, Available, CreatesOn, SpendsOn, Sound;
    if a != p {
      var b := p.value;
      var prev := Parent(t, genesis, b);
      BelowIsBlock(t, genesis, a, prev);
      ReplaySound(rules, t, genesis, blocks, prev);
      AlongPath(rules, t, genesis, blocks, prev, a, o);
      ConnectAvailable(rules, Replay(rules, t, genesis, blocks, prev).value, blocks[b], t[b].nHeight, o);
      OnFirst(blocks, b, Path(t, genesis, prev, a), o);
    } else {
      NothingOn(blocks, o);
    }
  }

  lemma NothingOn(blocks: map<BlockHash, Block>, o: OutPoint)
    ensures !CreatesOn(blocks, [], o) && !SpendsOn(blocks, [], o)
  {
  }

  lemma {:induction false} BelowIsBlock(t: Tree, genesis: BlockHash, a: Ptr, p: Ptr)
    requires TreeOk(t, genesis) && Known(t, p) && a.Some? && IsAncestor(t, genesis, a, p)
    ensures p.Some?
  {
  }
}

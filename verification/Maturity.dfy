/** What of the judgement on a transaction's inputs is settled by the transactions it spends from, and what depends on
    the chain: only how deep their coinbases are. */
module Maturity {
  import opened Coins
  import opened Ledger
  import opened Fading
  import opened BlockTree

  /** The transaction that a hash is of. */
  type Content = TxId -> Tx

  // ---- records are of transactions ----

  /** What is left of the outputs in a record are outputs of the very transaction. */
  ghost predicate Recorded(u: Utxo, content: Content) {
    forall id <- u :: RecordOf(u[id], content(id))
  }

  ghost predicate RecordOf(c: Coin, tx: Tx) {
    && c.fCoinBase == tx.IsCoinBase() && |c.vout| <= |tx.vout|
    && forall n :: 0 <= n < |c.vout| ==> c.vout[n].IsNull() || c.vout[n] == tx.vout[n]
  }

  ghost predicate AllOf(txs: seq<Tx>, content: Content) {
    forall i :: 0 <= i < |txs| ==> content(txs[i].txid) == txs[i]
  }

  lemma SpendKeepsRecord(c: Coin, n: nat, tx: Tx)
    requires c.IsAvailable(n) && RecordOf(c, tx)
    ensures RecordOf(Spend(c, n).0, tx)
  {
    var spent := c.vout[n := NULL_OUT];
    var left := Trim(spent);
    assert forall i :: 0 <= i < |left| ==> left[i] == spent[i];
  }

  lemma {:induction false} SpendInputsRecorded(u: Utxo, vin: seq<TxIn>, content: Content)
    requires Recorded(u, content) && SpendInputs(u, vin).Some?
    ensures Recorded(SpendInputs(u, vin).value.0, content)
  {
    hide RecordOf, Spend;
    if vin != [] {
      var k := |vin| - 1;
      SpendInputsRecorded(u, vin[..k], content);
      var u1 := SpendInputs(u, vin[..k]).value.0;
      var out := vin[k].prevout;
      SpendKeepsRecord(u1[out.hash], out.n, content(out.hash));
    }
  }

  lemma {:induction false} ConnectTxsRecorded(rules: Rules, u: Utxo, txs: seq<Tx>, nHeight: nat, nTime: nat,
                                              content: Content)
    requires Recorded(u, content) && AllOf(txs, content) && ConnectTxs(rules, u, txs, nHeight, nTime).Some?
    ensures Recorded(ConnectTxs(rules, u, txs, nHeight, nTime).value.u, content)
  {
    hide CheckInputs, PrevOuts, ScriptsOk, SpendInputs, Recorded, ValueIn, ValueOut;
    if txs != [] {
      var k := |txs| - 1;
      ConnectTxsRecorded(rules, u, txs[..k], nHeight, nTime, content);
      var before := ConnectTxs(rules, u, txs[..k], nHeight, nTime).value;
      var spent := before.u;
      if !txs[k].IsCoinBase() {
        SpendInputsRecorded(before.u, txs[k].vin, content);
        spent := SpendInputs(before.u, txs[k].vin).value.0;
      }
      AddedRecorded(spent, txs[k], nHeight, content);
    }
  }

  lemma AddedRecorded(u: Utxo, tx: Tx, nHeight: int, content: Content)
    requires Recorded(u, content) && content(tx.txid) == tx
    ensures Recorded(AddOutputs(u, tx, nHeight), content)
  {
  }

  /** Where a hash stands for one transaction, every replay holds records of transactions. */
  lemma {:induction false} ReplayRecorded(rules: Rules, t: Tree, genesis: BlockHash, blocks: map<BlockHash, Block>,
                                          p: Ptr, content: Content)
    requires TreeOk(t, genesis) && Known(t, p) && t.Keys <= blocks.Keys
    requires forall b <- blocks :: AllOf(blocks[b].vtx, content)
    requires Replay(rules, t, genesis, blocks, p).Some?
    ensures Recorded(Replay(rules, t, genesis, blocks, p).value, content)
    decreases Height(t, p) + 1
  {
    hide ConnectTxs, CheckBlock, Recorded, AllOf;
    if p.Some? && p.value != genesis {
      var prev := Parent(t, genesis, p.value);
      ReplayRecorded(rules, t, genesis, blocks, prev, content);
      ConnectTxsRecorded(rules, Replay(rules, t, genesis, blocks, prev).value, blocks[p.value].vtx, t[p.value].nHeight,
                         blocks[p.value].nTime, content);
    } else {
      NothingRecorded(content);
    }
  }

  lemma NothingRecorded(content: Content)
    ensures Recorded(map[], content)
  {
  }

  lemma ShownRecorded(live: Utxo, u: Utxo, content: Content)
    requires Shows(live, u) && Recorded(u, content)
    ensures Recorded(live, content)
  {
  }

  // ---- what is settled ----

  function Hashes(vin: seq<TxIn>): set<TxId> {
    set i | 0 <= i < |vin| :: vin[i].prevout.hash
  }

  /** The transactions it spends from, as if all their outputs were there and none were a coinbase. */
  function Ideal(content: Content, tx: Tx): Utxo {
    map id | id in Hashes(tx.vin) :: Coin(false, content(id).vout, 1, 0)
  }

  /** Ranges, fee and scripts are in order, whatever the chain is. */
  ghost predicate Fair(rules: Rules, content: Content, tx: Tx) {
    var u := Ideal(content, tx);
    && !tx.IsCoinBase() && HaveInputs(u, tx) && CheckInputs(u, tx, 0) && AllScriptsOk(rules, u, tx, POOL_FLAGS)
  }

  /** The coinbases that it spends are buried deep enough for a block at height `nHeight`. */
  ghost predicate Mature(u: Utxo, tx: Tx, nHeight: int) {
    forall i :: 0 <= i < |tx.vin| && tx.vin[i].prevout.hash in u ==> Ripe(u[tx.vin[i].prevout.hash], nHeight)
  }

  predicate Ripe(c: Coin, nHeight: int) {
    c.fCoinBase ==> nHeight - c.nHeight >= COINBASE_MATURITY
  }

  /** Two sets that show the same outputs for the inputs. */
  ghost predicate SameOuts(u: Utxo, v: Utxo, vin: seq<TxIn>) {
    forall i :: 0 <= i < |vin| ==> SameOut(u, v, vin[i].prevout)
  }

  ghost predicate SameOut(u: Utxo, v: Utxo, o: OutPoint) {
    Available(u, o) && Available(v, o) && u[o.hash].vout[o.n] == v[o.hash].vout[o.n]
  }

  lemma {:induction false} SameValues(u: Utxo, v: Utxo, vin: seq<TxIn>)
    requires SameOuts(u, v, vin)
    ensures forall i :: 0 <= i < |vin| ==> Available(u, vin[i].prevout) && Available(v, vin[i].prevout)
    ensures ValueIn(u, vin) == ValueIn(v, vin)
  {
    forall i | 0 <= i < |vin| ensures Available(u, vin[i].prevout) && Available(v, vin[i].prevout) {
      assert SameOut(u, v, vin[i].prevout);
    }
    if vin != [] {
      var init := vin[..|vin| - 1];
      forall i | 0 <= i < |init| ensures SameOut(u, v, init[i].prevout) {
        assert SameOut(u, v, vin[i].prevout);
      }
      SameValues(u, v, init);
      assert SameOut(u, v, vin[|vin| - 1].prevout);
    }
  }

  lemma SameScripts(rules: Rules, u: Utxo, v: Utxo, tx: Tx)
    requires !tx.IsCoinBase() && SameOuts(u, v, tx.vin)
    ensures HaveInputs(u, tx) && HaveInputs(v, tx)
    ensures AllScriptsOk(rules, u, tx, POOL_FLAGS) == AllScriptsOk(rules, v, tx, POOL_FLAGS)
  {
    SameValues(u, v, tx.vin);
    forall i | 0 <= i < |tx.vin| ensures PrevOuts(u, tx)[i] == PrevOuts(v, tx)[i] {
      assert SameOut(u, v, tx.vin[i].prevout);
    }
  }

  /** Sets that show the same outputs judge alike, but for maturity. */
  lemma SameJudgement(u: Utxo, v: Utxo, tx: Tx, nHeight: int, other: int)
    requires !tx.IsCoinBase() && SameOuts(u, v, tx.vin) && Mature(v, tx, other)
    ensures HaveInputs(u, tx) && HaveInputs(v, tx)
    ensures CheckInputs(u, tx, nHeight) <==> CheckInputs(v, tx, other) && Mature(u, tx, nHeight)
  {
    SameValues(u, v, tx.vin);
    forall i | 0 <= i < |tx.vin|
      ensures InputOk(u, tx, nHeight, i)
         <==> InputOk(v, tx, other, i) && Ripe(u[tx.vin[i].prevout.hash], nHeight)
    {
      assert SameOut(u, v, tx.vin[i].prevout) && Ripe(v[tx.vin[i].prevout.hash], other);
      var part := tx.vin[..i + 1];
      forall k | 0 <= k < |part| ensures SameOut(u, v, part[k].prevout) {
        assert SameOut(u, v, tx.vin[k].prevout);
      }
      SameValues(u, v, part);
    }
    forall i | 0 <= i < |tx.vin| ensures tx.vin[i].prevout.hash in u {
      assert SameOut(u, v, tx.vin[i].prevout);
    }
    Conjunction(u, v, tx, nHeight, other);
  }

  lemma {:induction false} Conjunction(u: Utxo, v: Utxo, tx: Tx, nHeight: int, other: int)
    requires !tx.IsCoinBase() && HaveInputs(u, tx) && HaveInputs(v, tx) && ValueIn(u, tx.vin) == ValueIn(v, tx.vin)
    requires forall i :: 0 <= i < |tx.vin| ==> tx.vin[i].prevout.hash in u
    requires forall i :: 0 <= i < |tx.vin| ==>
               (InputOk(u, tx, nHeight, i) <==> InputOk(v, tx, other, i) && Ripe(u[tx.vin[i].prevout.hash], nHeight))
    ensures CheckInputs(u, tx, nHeight) <==> CheckInputs(v, tx, other) && Mature(u, tx, nHeight)
  {
    hide InputOk, Ripe;
  }

  lemma IdealSame(u: Utxo, content: Content, tx: Tx)
    requires Recorded(u, content) && !tx.IsCoinBase() && HaveInputs(u, tx)
    ensures SameOuts(u, Ideal(content, tx), tx.vin) && Mature(Ideal(content, tx), tx, 0)
  {
    var v := Ideal(content, tx);
    forall i | 0 <= i < |tx.vin| ensures SameOut(u, v, tx.vin[i].prevout) {
      var o := tx.vin[i].prevout;
      assert Available(u, o) && RecordOf(u[o.hash], content(o.hash));
      assert o.hash in Hashes(tx.vin);
    }
  }

  /** The inputs are in order exactly if all that is settled is, and the coinbases are deep enough. */
  lemma JudgedBy(rules: Rules, u: Utxo, content: Content, tx: Tx, nHeight: int)
    requires Recorded(u, content) && !tx.IsCoinBase() && HaveInputs(u, tx)
    ensures CheckInputs(u, tx, nHeight) && AllScriptsOk(rules, u, tx, POOL_FLAGS)
       <==> Fair(rules, content, tx) && Mature(u, tx, nHeight)
  {
    hide Recorded, CheckInputs, AllScriptsOk, Mature, SameOuts, Ideal, HaveInputs;
    IdealSame(u, content, tx);
    SameScripts(rules, u, Ideal(content, tx), tx);
    SameJudgement(u, Ideal(content, tx), tx, nHeight, 0);
  }
}

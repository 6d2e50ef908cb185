/** The other way round from undoing a block: whatever is disconnected without complaint can be spent and made again,
    and gives back what was there. */
module Redo {
  import opened Options
  import opened Coins
  import opened Ledger

  /** What has been spent is an output. */
  predicate TrueUndo(undo: TxUndo) {
    forall i :: 0 <= i < |undo| ==> !undo[i].txout.IsNull() && undo[i].nHeight >= 0
  }

  lemma {:induction false} TrimLonger(vout: seq<TxOut>, long: seq<TxOut>)
    requires Trimmed(vout) && vout <= long && forall i :: |vout| <= i < |long| ==> long[i].IsNull()
    ensures Trim(long) == vout
    decreases |long|
  {
    if |long| > |vout| {
      TrimLonger(vout, long[..|long| - 1]);
    }
  }

  /** Spending again what was restored. */
  lemma SpendUndoesRestore(u: Utxo, out: OutPoint, undo: TxInUndo)
    requires Sound(u) && (forall id <- u :: !u[id].IsPruned()) && !undo.txout.IsNull() && undo.nHeight >= 0
    requires RestoreInput(u, out, undo).1
    ensures var v := RestoreInput(u, out, undo).0;
            && Sound(v) && (forall id <- v :: !v[id].IsPruned()) && Available(v, out)
            && SpendInput(v, out).0 == u && SpendInput(v, out).1.txout == undo.txout
            && (if undo.nHeight == 0 then out.hash in u
                else out.hash !in u && SpendInput(v, out).1 == undo)
  {
    hide Trim;
    var v := RestoreInput(u, out, undo).0;
    var c := Restore(if out.hash in u then Some(u[out.hash]) else None, out.n, undo).0;
    assert !c.vout[out.n].IsNull();
    var before := if undo.nHeight == 0 && out.hash in u then u[out.hash].vout else [];
    var spent := c.vout[out.n := NULL_OUT];
    TrimLonger(before, spent);
    RestoredTrimmed(before, out.n, undo.txout);
    assert SpendInput(v, out).0 == u by {
      if out.hash in u {
        assert v[out.hash := u[out.hash]] == u;
      } else {
        assert v - {out.hash} == u;
      }
    }
  }

  lemma RestoredTrimmed(before: seq<TxOut>, n: nat, out: TxOut)
    requires Trimmed(before) && !out.IsNull()
    ensures Trimmed(Resize(before, n + 1)[n := out])
  {
  }

  ghost predicate Clean(u: Utxo) {
    Sound(u) && forall id <- u :: !u[id].IsPruned()
  }

  /** The same for all inputs of a transaction. */
  lemma {:induction false} SpendUndoesRestores(u: Utxo, vin: seq<TxIn>, undo: TxUndo)
    requires Clean(u) && |vin| == |undo| && TrueUndo(undo) && RestoreInputs(u, vin, undo).Some?
    ensures var v := RestoreInputs(u, vin, undo).value;
            && Clean(v) && SpendInputs(v, vin).Some? && SpendInputs(v, vin).value.0 == u
            && |SpendInputs(v, vin).value.1| == |undo|
            && forall i :: 0 <= i < |undo| ==> AsUndone(SpendInputs(v, vin).value.1[i], undo[i])
    decreases |vin|
  {
    hide Clean, SpendInput, RestoreInput, Available;
    if vin != [] {
      var k := |vin| - 1;
      RestoredAndSpent(u, vin[k].prevout, undo[k]);
      var u1 := RestoreInput(u, vin[k].prevout, undo[k]).0;
      SpendUndoesRestores(u1, vin[..k], undo[..k]);
    }
  }

  /** The same output; and if the undo record tells of the whole transaction, the same record. */
  predicate AsUndone(made: TxInUndo, undo: TxInUndo) {
    made.txout == undo.txout && (undo.nHeight != 0 ==> made == undo)
  }

  lemma RestoredAndSpent(u: Utxo, out: OutPoint, undo: TxInUndo)
    requires Clean(u) && !undo.txout.IsNull() && undo.nHeight >= 0 && RestoreInput(u, out, undo).1
    ensures var v := RestoreInput(u, out, undo).0;
            && Clean(v) && Available(v, out) && SpendInput(v, out).0 == u && AsUndone(SpendInput(v, out).1, undo)
  {
    SpendUndoesRestore(u, out, undo);
  }

  /** Spends and makes again what the transactions do, and tests nothing. */
  function Redone(u: Utxo, txs: seq<Tx>, nHeight: int): Option<Utxo> {
    if txs == [] then Some(u)
    else
      var k := |txs| - 1;
      var before := Redone(u, txs[..k], nHeight);
      if before.None? then None
      else
        var spent := if k == 0 then Some((before.value, [])) else SpendInputs(before.value, txs[k].vin);
        if spent.None? then None else Some(AddOutputs(spent.value.0, txs[k], nHeight))
  }

  /** Without negative versions, which are not compared, a block that can be disconnected cleanly is one that leads,
      spent and made again, to just the set it was taken from. */
  lemma {:induction false} RedoesDisconnect(v: Utxo, txs: seq<Tx>, undo: BlockUndo, nHeight: nat)
    requires Clean(v) && txs != [] && |txs| == |undo| + 1 && nHeight >= 1
    requires forall k :: 0 <= k < |undo| ==> TrueUndo(undo[k])
    requires forall k :: 0 <= k < |txs| ==> txs[k].nVersion >= 0
    requires DisconnectTxs(v, txs, undo, nHeight).Some?
    ensures Clean(DisconnectTxs(v, txs, undo, nHeight).value)
    ensures Redone(DisconnectTxs(v, txs, undo, nHeight).value, txs, nHeight) == Some(v)
    decreases |txs|
  {
    hide Clean, RestoreInputs, SpendInputs, TrueUndo;
    var k := |txs| - 1;
    var u := DisconnectTxs(v, txs, undo, nHeight).value;
    RemovedAndAdded(v, txs[k], nHeight);
    var removed := RemoveOutputs(v, txs[k], nHeight).value;
    if k > 0 {
      SpendUndoesRestores(removed, txs[k].vin, undo[k - 1]);
      RedoesDisconnect(RestoreInputs(removed, txs[k].vin, undo[k - 1]).value, txs[..k], undo[..k - 1], nHeight);
    } else {
      assert Redone(u, txs[..0], nHeight) == Some(u);
    }
  }

  lemma RemovedAndAdded(v: Utxo, tx: Tx, nHeight: int)
    requires Clean(v) && tx.nVersion >= 0 && RemoveOutputs(v, tx, nHeight).Some?
    ensures Clean(RemoveOutputs(v, tx, nHeight).value)
    ensures AddOutputs(RemoveOutputs(v, tx, nHeight).value, tx, nHeight) == v
  {
    assert v[tx.txid := v[tx.txid]] == v;
    assert (v - {tx.txid})[tx.txid := v[tx.txid]] == v;
  }
}

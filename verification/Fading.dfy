/** What connecting and disconnecting do to unspent outputs of which some have been through the database, and with undo
    data that comes from a file. */
module Fading {
  import opened Options
  import opened Coins
  import opened Ledger
  import opened Stored

  /** The set when the records of the transactions `lost` have been stored and read back. */
  function Faded(u: Utxo, lost: set<TxId>): (f: Utxo)
    ensures f.Keys == u.Keys
  {
    map id | id in u :: if id in lost then StoredCoin(u[id]) else u[id]
  }

  function StoredTxUndo(txundo: TxUndo): (r: TxUndo)
    ensures |r| == |txundo|
  {
    seq(|txundo|, i requires 0 <= i < |txundo| => StoredUndo(txundo[i]))
  }

  /** The undo data of a block, written to its file and read back. */
  function StoredBlockUndo(undo: BlockUndo): (r: BlockUndo)
    ensures |r| == |undo|
  {
    seq(|undo|, i requires 0 <= i < |undo| => StoredTxUndo(undo[i]))
  }

  lemma FadedSound(u: Utxo, lost: set<TxId>)
    requires Sound(u)
    ensures Sound(Faded(u, lost))
  {
  }

  /** Only what is there can be lost. */
  lemma FadedSame(u: Utxo, a: set<TxId>, b: set<TxId>)
    requires forall id <- u :: id in a <==> id in b
    ensures Faded(u, a) == Faded(u, b)
  {
  }

  lemma FadedNothing(u: Utxo)
    ensures Faded(u, {}) == u
  {
  }

  lemma FadedTwice(u: Utxo, a: set<TxId>, b: set<TxId>)
    ensures Faded(Faded(u, a), b) == Faded(u, a + b)
  {
  }

  /** `live` is `u` but for what some of its records have lost. */
  ghost predicate Shows(live: Utxo, u: Utxo) {
    exists lost :: live == Faded(u, lost)
  }

  // ---- connecting ----

  lemma {:induction false} FadedValueIn(u: Utxo, lost: set<TxId>, vin: seq<TxIn>)
    requires forall i :: 0 <= i < |vin| ==> Available(u, vin[i].prevout)
    ensures forall i :: 0 <= i < |vin| ==> Available(Faded(u, lost), vin[i].prevout)
    ensures ValueIn(Faded(u, lost), vin) == ValueIn(u, vin)
  {
    if vin != [] {
      FadedValueIn(u, lost, vin[..|vin| - 1]);
      assert Available(u, vin[|vin| - 1].prevout);
    }
  }

  lemma {:induction false} FadedInputs(rules: Rules, u: Utxo, lost: set<TxId>, tx: Tx, nHeight: int, nTime: nat)
    requires Sound(u) && !tx.IsCoinBase() && HaveInputs(u, tx)
    ensures HaveInputs(Faded(u, lost), tx) && PrevOuts(Faded(u, lost), tx) == PrevOuts(u, tx)
    ensures CheckInputs(Faded(u, lost), tx, nHeight) == CheckInputs(u, tx, nHeight)
    ensures ScriptsOk(rules, Faded(u, lost), tx, nHeight, nTime) == ScriptsOk(rules, u, tx, nHeight, nTime)
    ensures ValueIn(Faded(u, lost), tx.vin) == ValueIn(u, tx.vin)
  {
    var f := Faded(u, lost);
    FadedValueIn(u, lost, tx.vin);
    assert PrevOuts(f, tx) == PrevOuts(u, tx);
    forall i | 0 <= i < |tx.vin| ensures InputOk(f, tx, nHeight, i) == InputOk(u, tx, nHeight, i) {
      assert Available(u, tx.vin[i].prevout);
      FadedValueIn(u, lost, tx.vin[..i + 1]);
    }
  }

  lemma FadedSpendInput(u: Utxo, lost: set<TxId>, out: OutPoint)
    requires Sound(u) && Available(u, out)
    ensures Available(Faded(u, lost), out)
    ensures SpendInput(Faded(u, lost), out).0 == Faded(SpendInput(u, out).0, lost)
    ensures StoredUndo(SpendInput(Faded(u, lost), out).1) == StoredUndo(SpendInput(u, out).1)
  {
    hide Trim;
  }

  lemma {:induction false} FadedSpendInputs(u: Utxo, lost: set<TxId>, vin: seq<TxIn>)
    requires Sound(u)
    ensures SpendInputs(Faded(u, lost), vin).Some? == SpendInputs(u, vin).Some?
    ensures SpendInputs(u, vin).Some? ==>
              && SpendInputs(Faded(u, lost), vin).value.0 == Faded(SpendInputs(u, vin).value.0, lost)
              && StoredTxUndo(SpendInputs(Faded(u, lost), vin).value.1) == StoredTxUndo(SpendInputs(u, vin).value.1)
  {
    hide SpendInput, Faded, StoredUndo;
    if vin != [] {
      var init, out := vin[..|vin| - 1], vin[|vin| - 1].prevout;
      FadedSpendInputs(u, lost, init);
      if SpendInputs(u, init).Some? {
        SpendInputsFacts(u, init);
        var u1 := SpendInputs(u, init).value.0;
        FadedAvailable(u1, lost, out);
        if Available(u1, out) {
          FadedSpendInput(u1, lost, out);
          StoredAppended(SpendInputs(u, init).value.1, SpendInput(u1, out).1);
          StoredAppended(SpendInputs(Faded(u, lost), init).value.1, SpendInput(Faded(u1, lost), out).1);
        }
      }
    }
  }

  lemma FadedAvailable(u: Utxo, lost: set<TxId>, out: OutPoint)
    ensures Available(Faded(u, lost), out) == Available(u, out)
  {
  }

  lemma StoredAppended(txundo: TxUndo, undo: TxInUndo)
    ensures StoredTxUndo(txundo + [undo]) == StoredTxUndo(txundo) + [StoredUndo(undo)]
  {
  }

  lemma BlockStoredAppended(undo: BlockUndo, txundo: TxUndo)
    ensures StoredBlockUndo(undo + [txundo]) == StoredBlockUndo(undo) + [StoredTxUndo(txundo)]
  {
  }

  /** Two states of the loop over a block's transactions that differ in what was lost only. */
  ghost predicate Alike(p: Progress, f: Progress, lost: set<TxId>) {
    f == p.(u := Faded(p.u, lost), undo := f.undo) && StoredBlockUndo(f.undo) == StoredBlockUndo(p.undo)
  }

  lemma FadedConnectTx(rules: Rules, p: Progress, f: Progress, lost: set<TxId>, tx: Tx, nHeight: int, nTime: nat)
    requires Sound(p.u) && Alike(p, f, lost) && tx.txid !in lost
    ensures ConnectTx(rules, f, tx, nHeight, nTime).Some? == ConnectTx(rules, p, tx, nHeight, nTime).Some?
    ensures ConnectTx(rules, p, tx, nHeight, nTime).Some? ==>
              Alike(ConnectTx(rules, p, tx, nHeight, nTime).value, ConnectTx(rules, f, tx, nHeight, nTime).value, lost)
  {
    hide Sound, SpendInputs, CheckInputs, PrevOuts, ScriptsOk, ValueIn, ValueOut, StoredBlockUndo, StoredTxUndo;
    var u := p.u;
    AddedFaded(u, lost, tx, nHeight);
    if !tx.IsCoinBase() {
      HaveFaded(u, lost, tx);
      if HaveInputs(u, tx) {
        FadedInputs(rules, u, lost, tx, nHeight, nTime);
        FadedSpendInputs(u, lost, tx.vin);
        if SpendInputs(u, tx.vin).Some? {
          AddedFaded(SpendInputs(u, tx.vin).value.0, lost, tx, nHeight);
          BlockStoredAppended(p.undo, SpendInputs(u, tx.vin).value.1);
          BlockStoredAppended(f.undo, SpendInputs(f.u, tx.vin).value.1);
        }
      }
    }
  }

  lemma HaveFaded(u: Utxo, lost: set<TxId>, tx: Tx)
    ensures HaveInputs(Faded(u, lost), tx) == HaveInputs(u, tx)
  {
    if !tx.IsCoinBase() {
      forall i | 0 <= i < |tx.vin|
        ensures Available(Faded(u, lost), tx.vin[i].prevout) == Available(u, tx.vin[i].prevout)
      {
        FadedAvailable(u, lost, tx.vin[i].prevout);
      }
    }
  }

  lemma AddedFaded(u: Utxo, lost: set<TxId>, tx: Tx, nHeight: int)
    requires tx.txid !in lost
    ensures AddOutputs(Faded(u, lost), tx, nHeight) == Faded(AddOutputs(u, tx, nHeight), lost)
  {
  }

  lemma {:induction false} FadedConnectTxs(rules: Rules, u: Utxo, lost: set<TxId>, txs: seq<Tx>, nHeight: nat,
                                           nTime: nat)
    requires Sound(u) && nHeight >= 1 && NoOverwrite(u, txs) && lost <= u.Keys
    requires txs != [] ==> ShapeOk(txs)
    ensures ConnectTxs(rules, Faded(u, lost), txs, nHeight, nTime).Some?
              == ConnectTxs(rules, u, txs, nHeight, nTime).Some?
    ensures ConnectTxs(rules, u, txs, nHeight, nTime).Some? ==>
              Alike(ConnectTxs(rules, u, txs, nHeight, nTime).value,
                    ConnectTxs(rules, Faded(u, lost), txs, nHeight, nTime).value, lost)
  {
    hide ConnectTx, Sound, Faded, CheckTransaction;
    if txs != [] {
      var k := |txs| - 1;
      var init := txs[..k];
      assert forall i :: 0 <= i < k ==> init[i] == txs[i];
      FadedConnectTxs(rules, u, lost, init, nHeight, nTime);
      var before := ConnectTxs(rules, u, init, nHeight, nTime);
      if before.Some? {
        ConnectTxsFacts(rules, u, init, nHeight, nTime);
        FadedConnectTx(rules, before.value, ConnectTxs(rules, Faded(u, lost), init, nHeight, nTime).value, lost,
                       txs[k], nHeight, nTime);
      }
    }
  }

  /** Whatever has been lost, the same blocks connect, with the same outcome up to what was lost, and the undo data that
      goes to the file is the same. */
  lemma ConnectFaded(rules: Rules, u: Utxo, lost: set<TxId>, block: Block, nHeight: nat)
    requires Sound(u) && nHeight >= 1 && lost <= u.Keys
    ensures Connect(rules, Faded(u, lost), block, nHeight).Some? == Connect(rules, u, block, nHeight).Some?
    ensures Connect(rules, u, block, nHeight).Some? ==>
              var ((u', undo), (f', undo')) := (Connect(rules, u, block, nHeight).value,
                                                Connect(rules, Faded(u, lost), block, nHeight).value);
              f' == Faded(u', lost) && StoredBlockUndo(undo') == StoredBlockUndo(undo)
  {
    hide ConnectTxs, Sound, StoredBlockUndo;
    if CheckBlock(rules, block) && NoOverwrite(u, block.vtx) {
      FadedConnectTxs(rules, u, lost, block.vtx, nHeight, block.nTime);
    }
  }

  /** So it does not matter what has been lost of the set that a block is connected to. */
  lemma ConnectShown(rules: Rules, u: Utxo, live: Utxo, block: Block, nHeight: nat)
    requires Sound(u) && nHeight >= 1 && Shows(live, u)
    ensures Sound(live) && Connect(rules, live, block, nHeight).Some? == Connect(rules, u, block, nHeight).Some?
    ensures Connect(rules, u, block, nHeight).Some? ==>
              var ((u', undo), (live', undo')) := (Connect(rules, u, block, nHeight).value,
                                                   Connect(rules, live, block, nHeight).value);
              Shows(live', u') && StoredBlockUndo(undo') == StoredBlockUndo(undo)
  {
    hide Connect, Sound, Faded, StoredBlockUndo;
    var lost :| live == Faded(u, lost);
    var there := lost * u.Keys;
    FadedSame(u, lost, there);
    FadedSound(u, there);
    ConnectFaded(rules, u, there, block, nHeight);
  }

  // ---- disconnecting with undo data from the file ----

  /** Putting one output back: its record is what it was, if it has not been lost before, and if it is not the record
      itself that comes from the file. */
  lemma RestoreFadedInput(u: Utxo, lost: set<TxId>, out: OutPoint)
    requires Sound(u) && Available(u, out)
    ensures var (u', undo) := SpendInput(u, out);
            RestoreInput(Faded(u', lost), out, StoredUndo(undo)) == (Faded(u, lost + (u.Keys - u'.Keys)), true)
  {
    hide Trimmed, Trim, Restore, Spend, Faded;
    RestoreUndoesSpend(u[out.hash], out.n);
    if Spend(u[out.hash], out.n).0.vout == [] {
      RestoreEmptied(u, lost, out);
    } else {
      RestoreLeft(u, lost, out);
    }
  }

  lemma RestoreEmptied(u: Utxo, lost: set<TxId>, out: OutPoint)
    requires Sound(u) && Available(u, out) && Spend(u[out.hash], out.n).0.vout == []
    ensures var (u', undo) := SpendInput(u, out);
            RestoreInput(Faded(u', lost), out, StoredUndo(undo)) == (Faded(u, lost + (u.Keys - u'.Keys)), true)
  {
    hide Trimmed, Trim;
    var (u', undo) := SpendInput(u, out);
    var c := u[out.hash];
    RestoreUndoesSpend(c, out.n);
    assert Restore(None, out.n, StoredUndo(undo)) == (StoredCoin(c), true);
    assert Faded(u', lost)[out.hash := StoredCoin(c)] == Faded(u, lost + (u.Keys - u'.Keys));
  }

  lemma RestoreLeft(u: Utxo, lost: set<TxId>, out: OutPoint)
    requires Sound(u) && Available(u, out) && Spend(u[out.hash], out.n).0.vout != []
    ensures var (u', undo) := SpendInput(u, out);
            RestoreInput(Faded(u', lost), out, StoredUndo(undo)) == (Faded(u, lost + (u.Keys - u'.Keys)), true)
  {
    hide Trimmed, Trim;
    var (u', undo) := SpendInput(u, out);
    var c := u[out.hash];
    RestoreUndoesSpend(c, out.n);
    assert StoredUndo(undo) == undo;
    var left := Faded(u', lost)[out.hash];
    assert left == u'[out.hash].(nVersion := left.nVersion);
    RestoreKeepsVersion(u'[out.hash], left.nVersion, out.n, undo);
    assert Faded(u', lost)[out.hash := c.(nVersion := left.nVersion)] == Faded(u, lost + (u.Keys - u'.Keys));
  }

  lemma RestoreKeepsVersion(c: Coin, nVersion: int, n: nat, undo: TxInUndo)
    requires undo.nHeight == 0 && !c.IsPruned()
    ensures var (r, clean) := Restore(Some(c), n, undo);
            Restore(Some(c.(nVersion := nVersion)), n, undo) == (r.(nVersion := nVersion), clean)
  {
  }

  lemma {:induction false} RestoreFadedInputs(u: Utxo, lost: set<TxId>, vin: seq<TxIn>)
    requires Sound(u) && SpendInputs(u, vin).Some?
    ensures var (u', undo) := SpendInputs(u, vin).value;
            && |undo| == |vin| && u'.Keys <= u.Keys
            && RestoreInputs(Faded(u', lost), vin, StoredTxUndo(undo)) == Some(Faded(u, lost + (u.Keys - u'.Keys)))
    decreases |vin|
  {
    hide Sound, SpendInput, RestoreInput, Available, Faded;
    SpendInputsFacts(u, vin);
    var (u', undo) := SpendInputs(u, vin).value;
    if vin == [] {
      FadedSame(u, lost, lost + (u.Keys - u'.Keys));
    } else {
      var k := |vin| - 1;
      SpendInputsFacts(u, vin[..k]);
      var (u1, undo1) := SpendInputs(u, vin[..k]).value;
      SpendInputFacts(u1, vin[k].prevout);
      RestoreFadedInput(u1, lost, vin[k].prevout);
      var more := lost + (u1.Keys - u'.Keys);
      RestoreFadedInputs(u, more, vin[..k]);
      FadedSame(u, more + (u.Keys - u1.Keys), lost + (u.Keys - u'.Keys));
      assert StoredTxUndo(undo)[..k] == StoredTxUndo(undo1);
    }
  }

  /** Taking back the last transaction: its own record is removed whatever was lost of it, and its inputs come back. */
  lemma DisconnectFadedTx(rules: Rules, p: Progress, lost: set<TxId>, tx: Tx, nHeight: nat, nTime: nat)
    requires Sound(p.u) && nHeight >= 1 && tx.txid !in p.u && CheckTransaction(tx)
    requires ConnectTx(rules, p, tx, nHeight, nTime).Some?
    ensures var p' := ConnectTx(rules, p, tx, nHeight, nTime).value;
            var removed := RemoveOutputs(Faded(p'.u, lost), tx, nHeight);
            && removed.Some?
            && if tx.IsCoinBase() then removed.value == Faded(p.u, lost) && p.u.Keys <= p'.u.Keys
               else && |p'.undo| == |p.undo| + 1 && |p'.undo[|p.undo|]| == |tx.vin|
                    && RestoreInputs(removed.value, tx.vin, StoredTxUndo(p'.undo[|p.undo|]))
                       == Some(Faded(p.u, lost + (p.u.Keys - p'.u.Keys)))
  {
    hide SpendInputs, RestoreInputs, CheckInputs, PrevOuts, ValueIn, ValueOut, Available, Sound;
    var p' := ConnectTx(rules, p, tx, nHeight, nTime).value;
    var spent := p.u;
    if !tx.IsCoinBase() {
      SpendInputsFacts(p.u, tx.vin);
      spent := SpendInputs(p.u, tx.vin).value.0;
      RestoreFadedInputs(p.u, lost, tx.vin);
      FadedSame(p.u, lost + (p.u.Keys - spent.Keys), lost + (p.u.Keys - p'.u.Keys));
    }
    RemoveFaded(spent, lost, tx, nHeight);
  }

  lemma RemoveFaded(u: Utxo, lost: set<TxId>, tx: Tx, nHeight: nat)
    requires tx.txid !in u
    ensures RemoveOutputs(Faded(AddOutputs(u, tx, nHeight), lost), tx, nHeight) == Some(Faded(u, lost))
  {
    var f := Faded(AddOutputs(u, tx, nHeight), lost);
    assert f - {tx.txid} == Faded(u, lost);
  }

  lemma {:induction false} DisconnectFadedTxs(rules: Rules, u: Utxo, lost: set<TxId>, txs: seq<Tx>, nHeight: nat,
                                              nTime: nat)
    requires Sound(u) && nHeight >= 1 && NoOverwrite(u, txs)
    requires txs != [] ==> ShapeOk(txs)
    requires ConnectTxs(rules, u, txs, nHeight, nTime).Some?
    ensures var p := ConnectTxs(rules, u, txs, nHeight, nTime).value;
            && |p.undo| == (if txs == [] then 0 else |txs| - 1)
            && DisconnectTxs(Faded(p.u, lost), txs, StoredBlockUndo(p.undo), nHeight)
               == Some(Faded(u, lost + (u.Keys - p.u.Keys)))
    decreases |txs|
  {
    hide ConnectTx, RemoveOutputs, RestoreInputs, Sound, CheckTransaction, Faded, StoredTxUndo;
    ConnectTxsFacts(rules, u, txs, nHeight, nTime);
    var p := ConnectTxs(rules, u, txs, nHeight, nTime).value;
    if txs == [] {
      FadedSame(u, lost, lost + (u.Keys - p.u.Keys));
    } else {
      var k := |txs| - 1;
      var tx, init := txs[k], txs[..k];
      assert forall i :: 0 <= i < k ==> init[i] == txs[i];
      ConnectTxsFacts(rules, u, init, nHeight, nTime);
      var before := ConnectTxs(rules, u, init, nHeight, nTime).value;
      ConnectTxFacts(rules, before, tx, nHeight, nTime);
      DisconnectFadedTx(rules, before, lost, tx, nHeight, nTime);
      var more := if tx.IsCoinBase() then lost else lost + (before.u.Keys - p.u.Keys);
      DisconnectFadedTxs(rules, u, more, init, nHeight, nTime);
      SameLoss(rules, u, lost, more, before.u, p.u, txs, nHeight);
      assert k > 0 ==> StoredBlockUndo(p.undo)[..k - 1] == StoredBlockUndo(before.undo);
    }
  }

  lemma SameLoss(rules: Rules, u: Utxo, lost: set<TxId>, more: set<TxId>, before: Utxo, after: Utxo, txs: seq<Tx>,
                 nHeight: nat)
    requires txs != [] && NoOverwrite(u, txs)
    requires more == lost + (before.Keys - after.Keys) || (more == lost && before.Keys <= after.Keys)
    requires after.Keys <= before.Keys + {txs[|txs| - 1].txid}
    ensures Faded(u, more + (u.Keys - before.Keys)) == Faded(u, lost + (u.Keys - after.Keys))
  {
    FadedSame(u, more + (u.Keys - before.Keys), lost + (u.Keys - after.Keys));
  }

  /** Disconnecting a block with the undo data from its file, whatever had been lost before: of the unspent outputs
      before the block, those records are lost as well that the block had emptied. */
  lemma DisconnectFromFile(rules: Rules, u: Utxo, lost: set<TxId>, block: Block, nHeight: nat)
    requires Sound(u) && nHeight >= 1 && Connect(rules, u, block, nHeight).Some?
    ensures var (u', undo) := Connect(rules, u, block, nHeight).value;
            Disconnect(Faded(u', lost), block, StoredBlockUndo(undo), nHeight)
              == Some(Faded(u, lost + (u.Keys - u'.Keys)))
  {
    hide ConnectTxs, DisconnectTxs, Sound, StoredBlockUndo, Faded;
    DisconnectFadedTxs(rules, u, lost, block.vtx, nHeight, block.nTime);
  }

  /** Nothing is lost exactly if no transaction that the block empties has a negative version. */
  lemma DisconnectWhole(rules: Rules, u: Utxo, block: Block, nHeight: nat)
    requires Sound(u) && nHeight >= 1 && Connect(rules, u, block, nHeight).Some?
    ensures var (u', undo) := Connect(rules, u, block, nHeight).value;
            Disconnect(u', block, StoredBlockUndo(undo), nHeight) == Some(u)
            <==> forall id <- u :: id !in u' ==> u[id].nVersion >= 0
  {
    hide Connect, Disconnect, StoredBlockUndo;
    DisconnectFromFile(rules, u, {}, block, nHeight);
    var u' := Connect(rules, u, block, nHeight).value.0;
    FadedNothing(u');
    var f := Faded(u, {} + (u.Keys - u'.Keys));
    forall id | id in u ensures f[id] == u[id] <==> id in u' || u[id].nVersion >= 0 {
      CoinWhole(u[id]);
    }
    if forall id <- u :: id !in u' ==> u[id].nVersion >= 0 {
      assert f == u;
    } else {
      var id :| id in u && id !in u' && u[id].nVersion < 0;
      assert f[id] != u[id];
    }
  }

  // ---- a version that is lost ----

  const MINUS_ONE := Coin(false, [TxOut(5, [])], 31, -1)
  const COINBASE_TX := Tx(1, 1, [TxIn(OutPoint(0, NULL_INDEX), [], 0)], [TxOut(0, [])], 0)
  const SPENDING_TX := Tx(2, 1, [TxIn(OutPoint(7, 0), [], 0)], [TxOut(5, [])], 0)
  const SPENDING_BLOCK := Block(9, [COINBASE_TX, SPENDING_TX], 0)

  lemma {:induction false} ConnectCoinbase(rules: Rules)
    requires rules.legacySigOps(COINBASE_TX) == 0
    ensures ConnectTxs(rules, map[7 := MINUS_ONE], [COINBASE_TX], 32, 0)
         == Some(Progress(map[7 := MINUS_ONE, 1 := FromTx(COINBASE_TX, 32)], [], 0, 0, true))
  {
    assert [COINBASE_TX][..0] == [];
    assert ConnectTxs(rules, map[7 := MINUS_ONE], [], 32, 0) == Some(Progress(map[7 := MINUS_ONE], [], 0, 0, true));
  }

  lemma {:induction false} SpendMinusOne(u: Utxo)
    requires u == map[7 := MINUS_ONE, 1 := FromTx(COINBASE_TX, 32)]
    ensures SpendInputs(u, SPENDING_TX.vin)
              == Some((map[1 := FromTx(COINBASE_TX, 32)], [TxInUndo(TxOut(5, []), false, 31, -1)]))
  {
    var vin := SPENDING_TX.vin;
    assert vin[..0] == [] && SpendInputs(u, []) == Some((u, []));
    assert MINUS_ONE.vout[0 := NULL_OUT] == [NULL_OUT] && [NULL_OUT][..0] == [];
    assert Trim([NULL_OUT]) == [] by {
      assert Trim([]) == [];
    }
    var rest := map[1 := FromTx(COINBASE_TX, 32)];
    assert u - {7} == rest;
    var undo := TxInUndo(TxOut(5, []), false, 31, -1);
    assert u[7] == MINUS_ONE && Spend(u[7], 0) == (MINUS_ONE.(vout := []), undo);
    assert SpendInput(u, OutPoint(7, 0)) == (rest, undo);
    assert vin == [TxIn(OutPoint(7, 0), [], 0)] && SpendInputs(u, vin[..|vin| - 1]) == Some((u, []));
    var none: TxUndo := [];
    assert none + [undo] == [undo];
    assert SpendInputs(u, vin) == Some((rest, none + [undo]));
  }

  lemma {:induction false} CheckMinusOne(u: Utxo)
    requires u == map[7 := MINUS_ONE, 1 := FromTx(COINBASE_TX, 32)]
    ensures HaveInputs(u, SPENDING_TX) && CheckInputs(u, SPENDING_TX, 32) && PrevOuts(u, SPENDING_TX) == [TxOut(5, [])]
    ensures ValueIn(u, SPENDING_TX.vin) == ValueOut(SPENDING_TX.vout)
  {
    var vin, vout := SPENDING_TX.vin, SPENDING_TX.vout;
    assert Available(u, vin[0].prevout) && vin[..0] == [] && vin[..1] == vin;
    assert ValueIn(u, []) == 0 && ValueIn(u, vin) == 5;
    assert vout[..0] == [] && ValueOut([]) == 0 && ValueOut(vout) == 5;
    assert InputOk(u, SPENDING_TX, 32, 0);
    assert PrevOuts(u, SPENDING_TX)[0] == TxOut(5, []);
    assert PrevOuts(u, SPENDING_TX) == [TxOut(5, [])];
  }

  lemma ConnectSpending(rules: Rules, p: Progress)
    requires rules.legacySigOps(SPENDING_TX) == 0 && rules.scriptOk(SPENDING_TX, 0, TxOut(5, []), BlockFlags(0))
    requires p == Progress(map[7 := MINUS_ONE, 1 := FromTx(COINBASE_TX, 32)], [], 0, 0, true)
    ensures ConnectTx(rules, p, SPENDING_TX, 32, 0)
         == Some(Progress(map[1 := FromTx(COINBASE_TX, 32), 2 := FromTx(SPENDING_TX, 32)], 
                          [[TxInUndo(TxOut(5, []), false, 31, -1)]], 0, 0, true))
  {
    hide SpendInputs, CheckInputs, ValueIn, ValueOut, PrevOuts;
    SpendMinusOne(p.u);
    CheckMinusOne(p.u);
    var rest := map[1 := FromTx(COINBASE_TX, 32)];
    assert !SPENDING_TX.IsCoinBase();
    assert p.undo + [[TxInUndo(TxOut(5, []), false, 31, -1)]] == [[TxInUndo(TxOut(5, []), false, 31, -1)]];
    assert AddOutputs(rest, SPENDING_TX, 32) == map[1 := FromTx(COINBASE_TX, 32), 2 := FromTx(SPENDING_TX, 32)];
    assert ScriptsOk(rules, p.u, SPENDING_TX, 32, 0);
  }

  lemma SmallShape()
    ensures ShapeOk(SPENDING_BLOCK.vtx) && NoOverwrite(map[7 := MINUS_ONE], SPENDING_BLOCK.vtx)
    ensures ValueOut(COINBASE_TX.vout) == 0
  {
    forall tx | tx == COINBASE_TX || tx == SPENDING_TX ensures CheckTransaction(tx) {
      assert tx.vout[..0] == [] && tx.vout[..1] == tx.vout;
      assert ValueOut([]) == 0 && ValueOut(tx.vout) == tx.vout[0].nValue;
    }
  }

  /** A block that spends the last output of a transaction with version -1: after it is disconnected, the transaction
      has version 127. */
  lemma VersionLost(rules: Rules)
    requires rules.headerOk(SPENDING_BLOCK) && rules.legacySigOps(COINBASE_TX) == rules.legacySigOps(SPENDING_TX) == 0
    requires rules.scriptOk(SPENDING_TX, 0, TxOut(5, []), BlockFlags(0))
    ensures var u := map[7 := MINUS_ONE];
            && Sound(u) && Connect(rules, u, SPENDING_BLOCK, 32).Some?
            && var r := Connect(rules, u, SPENDING_BLOCK, 32).value;
            && Disconnect(r.0, SPENDING_BLOCK, StoredBlockUndo(r.1), 32) == Some(map[7 := MINUS_ONE.(nVersion := 127)])
  {
    hide ConnectTx, Disconnect, StoredBlockUndo, ShapeOk, NoOverwrite;
    var u := map[7 := MINUS_ONE];
    SmallShape();
    ConnectCoinbase(rules);
    ConnectSpending(rules, ConnectTxs(rules, u, [COINBASE_TX], 32, 0).value);
    assert SPENDING_BLOCK.vtx[..1] == [COINBASE_TX];
    var u' := Connect(rules, u, SPENDING_BLOCK, 32).value.0;
    DisconnectFromFile(rules, u, {}, SPENDING_BLOCK, 32);
    FadedNothing(u');
    assert Faded(u, {} + (u.Keys - u'.Keys)) == map[7 := MINUS_ONE.(nVersion := 127)];
  }

  // ---- versions along a branch ----

  ghost predicate NaturalVersions(u: Utxo) {
    forall id <- u :: u[id].nVersion >= 0
  }

  predicate NaturalBlock(block: Block) {
    forall i :: 0 <= i < |block.vtx| ==> block.vtx[i].nVersion >= 0
  }

  /** Of records without negative versions nothing is ever lost. */
  lemma NothingToLose(u: Utxo, lost: set<TxId>)
    requires Sound(u) && NaturalVersions(u)
    ensures Faded(u, lost) == u
  {
    forall id | id in u ensures StoredCoin(u[id]) == u[id] {
      CoinWhole(u[id]);
    }
  }

  lemma {:induction false} SpendKeepsNatural(u: Utxo, vin: seq<TxIn>)
    requires NaturalVersions(u) && SpendInputs(u, vin).Some?
    ensures NaturalVersions(SpendInputs(u, vin).value.0)
  {
    if vin != [] {
      SpendKeepsNatural(u, vin[..|vin| - 1]);
    }
  }

  lemma {:induction false} ConnectTxsKeepNatural(rules: Rules, u: Utxo, txs: seq<Tx>, nHeight: nat, nTime: nat)
    requires NaturalVersions(u) && forall i :: 0 <= i < |txs| ==> txs[i].nVersion >= 0
    requires ConnectTxs(rules, u, txs, nHeight, nTime).Some?
    ensures NaturalVersions(ConnectTxs(rules, u, txs, nHeight, nTime).value.u)
  {
    hide CheckInputs, PrevOuts, ScriptsOk, SpendInputs;
    if txs != [] {
      var k := |txs| - 1;
      ConnectTxsKeepNatural(rules, u, txs[..k], nHeight, nTime);
      var before := ConnectTxs(rules, u, txs[..k], nHeight, nTime).value;
      if !txs[k].IsCoinBase() {
        SpendKeepsNatural(before.u, txs[k].vin);
      }
    }
  }

  /** A block without negative versions brings none in. */
  lemma ConnectKeepsNatural(rules: Rules, u: Utxo, block: Block, nHeight: nat)
    requires NaturalVersions(u) && NaturalBlock(block) && Connect(rules, u, block, nHeight).Some?
    ensures NaturalVersions(Connect(rules, u, block, nHeight).value.0)
  {
    ConnectTxsKeepNatural(rules, u, block.vtx, nHeight, block.nTime);
  }
}

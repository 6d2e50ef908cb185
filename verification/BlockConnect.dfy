/** Connecting and disconnecting a block on a coin view, transaction by transaction. */
module BlockConnect {
  import opened Options
  import opened Coins
  import opened Ledger
  import opened CoinsView
  import opened BlockTree

  lemma LiveSet(m: map<TxId, Coin>, id: TxId, c: Coin)
    ensures Live(m[id := c]) == if c.IsPruned() then Live(m) - {id} else Live(m)[id := c]
  {
  }

  lemma LiveAt(m: map<TxId, Coin>, id: TxId)
    ensures id in Live(m) <==> id in m && !m[id].IsPruned()
    ensures id in Live(m) ==> Live(m)[id] == m[id]
    ensures id !in Live(m) ==> Live(m) - {id} == Live(m)
  {
  }

  lemma LiveGet(m: map<TxId, Coin>, out: OutPoint)
    ensures Available(Live(m), out) <==> out.hash in m && m[out.hash].IsAvailable(out.n)
    ensures Available(Live(m), out) ==> out.hash in Live(m) && Live(m)[out.hash] == m[out.hash]
  {
  }

  method HaveInputs(tx: Tx, view: View) returns (ok: bool)
    requires view.Valid()
    modifies view.Repr
    ensures view.Unmoved()
    ensures ok == Ledger.HaveInputs(Live(view.Contents()), tx)
  {
    if tx.IsCoinBase() {
      return true;
    }
    for i := 0 to |tx.vin|
      invariant view.Unmoved()
      invariant forall k :: 0 <= k < i ==> tx.vin[k].prevout.hash in view.Contents()
    {
      var c := view.FetchCoins(tx.vin[i].prevout.hash);
      if c == None {
        assert !Available(Live(view.Contents()), tx.vin[i].prevout);
        return false;
      }
    }
    for i := 0 to |tx.vin|
      invariant view.Unmoved()
      invariant forall k :: 0 <= k < i ==> Available(Live(view.Contents()), tx.vin[k].prevout)
    {
      var c := view.FetchCoins(tx.vin[i].prevout.hash);
      if !c.value.IsAvailable(tx.vin[i].prevout.n) {
        assert !Available(Live(view.Contents()), tx.vin[i].prevout);
        return false;
      }
    }
    ok := true;
  }

  lemma {:induction false} ValueInStep(u: Utxo, vin: seq<TxIn>, i: nat)
    requires i < |vin| && forall k :: 0 <= k < |vin| ==> Available(u, vin[k].prevout)
    ensures ValueIn(u, vin[..i + 1]) == ValueIn(u, vin[..i]) + u[vin[i].prevout.hash].vout[vin[i].prevout.n].nValue
  {
    assert vin[..i + 1][..i] == vin[..i];
  }

  method GetValueIn(tx: Tx, view: View) returns (nResult: int)
    requires view.Valid() && !tx.IsCoinBase() && Ledger.HaveInputs(Live(view.Contents()), tx)
    modifies view.Repr
    ensures view.Unmoved()
    ensures nResult == ValueIn(Live(view.Contents()), tx.vin)
  {
    nResult := 0;
    for i := 0 to |tx.vin|
      invariant view.Unmoved()
      invariant nResult == ValueIn(Live(view.Contents()), tx.vin[..i])
    {
      assert Available(Live(view.Contents()), tx.vin[i].prevout);
      var c := view.FetchCoins(tx.vin[i].prevout.hash);
      nResult := nResult + c.value.vout[tx.vin[i].prevout.n].nValue;
      ValueInStep(Live(view.Contents()), tx.vin, i);
    }
    assert tx.vin[..|tx.vin|] == tx.vin;
  }

  /** The outputs that the transaction spends, for counting their signature operations. */
  method GetOutputs(tx: Tx, view: View) returns (prevouts: seq<TxOut>)
    requires view.Valid() && !tx.IsCoinBase() && Ledger.HaveInputs(Live(view.Contents()), tx)
    modifies view.Repr
    ensures view.Unmoved()
    ensures prevouts == PrevOuts(Live(view.Contents()), tx)
  {
    prevouts := [];
    for i := 0 to |tx.vin|
      invariant view.Unmoved()
      invariant prevouts == PrevOuts(Live(view.Contents()), tx)[..i]
    {
      assert Available(Live(view.Contents()), tx.vin[i].prevout);
      var c := view.FetchCoins(tx.vin[i].prevout.hash);
      prevouts := prevouts + [c.value.vout[tx.vin[i].prevout.n]];
    }
  }

  /** Tests the inputs of a transaction for a block on top of the view's best one. `fScripts` is the conjunction of the
      script checks that the transaction queues. */
  method CheckInputs(rules: Rules, tx: Tx, view: View, t: Tree, fScriptChecks: bool, flags: Flags)
    returns (ok: bool, fScripts: bool)
    requires view.Valid() && view.pindexTip.Some? && view.pindexTip.value in t
    modifies view.Repr
    ensures view.Unmoved()
    ensures ok == (|| tx.IsCoinBase()
                   || (&& Ledger.HaveInputs(Live(view.Contents()), tx)
                       && Ledger.CheckInputs(Live(view.Contents()), tx, t[view.pindexTip.value].nHeight + 1)))
    ensures ok ==> (fScripts <==> (fScriptChecks && !tx.IsCoinBase()
                                   ==> AllScriptsOk(rules, Live(view.Contents()), tx, flags)))
  {
    hide Live, ValueOut, Ledger.HaveInputs;
    if tx.IsCoinBase() {
      return true, true;
    }
    ghost var u := Live(view.Contents());
    var have := HaveInputs(tx, view);
    if !have {
      return false, false;
    }
    var tip := view.GetBestBlock();
    var nSpendHeight := t[tip.value].nHeight + 1;
    ok := CheckValues(tx, view, nSpendHeight);
    fScripts := true;
    if ok && fScriptChecks {
      fScripts := CheckScripts(rules, tx, view, flags);
    }
  }

  method CheckValues(tx: Tx, view: View, nSpendHeight: int) returns (ok: bool)
    requires view.Valid() && !tx.IsCoinBase() && Ledger.HaveInputs(Live(view.Contents()), tx)
    modifies view.Repr
    ensures view.Unmoved()
    ensures ok == Ledger.CheckInputs(Live(view.Contents()), tx, nSpendHeight)
  {
    hide Live, ValueOut;
    ghost var u := Live(view.Contents());
    var nValueIn := 0;
    for i := 0 to |tx.vin|
      invariant view.Unmoved()
      invariant nValueIn == ValueIn(u, tx.vin[..i])
      invariant forall k :: 0 <= k < i ==> InputOk(u, tx, nSpendHeight, k)
    {
      LiveGet(view.Contents(), tx.vin[i].prevout);
      var c := view.FetchCoins(tx.vin[i].prevout.hash);
      var coins := c.value;
      ValueInStep(u, tx.vin, i);
      if coins.fCoinBase && nSpendHeight - coins.nHeight < COINBASE_MATURITY {
        assert !InputOk(u, tx, nSpendHeight, i);
        return false;
      }
      var nValue := coins.vout[tx.vin[i].prevout.n].nValue;
      nValueIn := nValueIn + nValue;
      if !MoneyRange(nValue) || !MoneyRange(nValueIn) {
        assert !InputOk(u, tx, nSpendHeight, i);
        return false;
      }
    }
    assert tx.vin[..|tx.vin|] == tx.vin;
    ok := nValueIn >= ValueOut(tx.vout) && MoneyRange(nValueIn - ValueOut(tx.vout));
  }

  method CheckScripts(rules: Rules, tx: Tx, view: View, flags: Flags) returns (fScripts: bool)
    requires view.Valid() && !tx.IsCoinBase() && Ledger.HaveInputs(Live(view.Contents()), tx)
    modifies view.Repr
    ensures view.Unmoved()
    ensures fScripts == AllScriptsOk(rules, Live(view.Contents()), tx, flags)
  {
    hide Live;
    ghost var u := Live(view.Contents());
    fScripts := true;
    for i := 0 to |tx.vin|
      invariant view.Unmoved()
      invariant fScripts == forall k :: 0 <= k < i ==> rules.scriptOk(tx, k, PrevOuts(u, tx)[k], flags)
    {
      LiveGet(view.Contents(), tx.vin[i].prevout);
      var c := view.FetchCoins(tx.vin[i].prevout.hash);
      assert PrevOuts(u, tx)[i] == c.value.vout[tx.vin[i].prevout.n];
      fScripts := fScripts && rules.scriptOk(tx, i, c.value.vout[tx.vin[i].prevout.n], flags);
    }
  }

  /** Spends one output in the cached record; the assertion is the one in the code. */
  method SpendOne(view: View, out: OutPoint) returns (undo: TxInUndo)
    requires view.Valid() && view.base != null && Sound(Live(view.Contents())) && Available(Live(view.Contents()), out)
    modifies view.Repr
    ensures view.BaseUnmoved() && view.Best() == old(view.Best()) && view.pindexTip == old(view.pindexTip)
    ensures view.Grown()
    ensures Sound(Live(view.Contents()))
    ensures (Live(view.Contents()), undo) == SpendInput(old(Live(view.Contents())), out)
  {
    hide Spend, SpendInput, Live, Sound, Available, View.Contents, View.Best;
    SpendRaw(view.Contents(), out);
    var c := view.FetchCoins(out.hash);
    var coins := new CCoins(c.value);
    var fSpent;
    fSpent, undo := coins.SpendOutput(out.n);
    assert fSpent;
    view.SetCoins(out.hash, coins.Value());
  }

  lemma SpendRaw(m: map<TxId, Coin>, out: OutPoint)
    requires Sound(Live(m)) && Available(Live(m), out)
    ensures out.hash in m && m[out.hash].IsAvailable(out.n)
    ensures var (c, undo) := Spend(m[out.hash], out.n);
            Sound(Live(m[out.hash := c])) && (Live(m[out.hash := c]), undo) == SpendInput(Live(m), out)
  {
    hide Trimmed, Spend;
    LiveGet(m, out);
    RestoreUndoesSpend(m[out.hash], out.n);
    SpendInputFacts(Live(m), out);
    LiveSet(m, out.hash, Spend(m[out.hash], out.n).0);
  }

  method UpdateCoins(tx: Tx, view: View, nHeight: int) returns (txundo: TxUndo)
    requires view.Valid() && view.base != null && Sound(Live(view.Contents())) && nHeight >= 1
    requires CheckTransaction(tx) && Ledger.HaveInputs(Live(view.Contents()), tx)
    modifies view.Repr
    ensures view.BaseUnmoved() && view.Best() == old(view.Best()) && view.pindexTip == old(view.pindexTip)
    ensures view.Grown()
    ensures Sound(Live(view.Contents()))
    ensures var spent := if tx.IsCoinBase() then Some((old(Live(view.Contents())), []))
                         else SpendInputs(old(Live(view.Contents())), tx.vin);
            && spent.Some?
            && Live(view.Contents()) == AddOutputs(spent.value.0, tx, nHeight)
            && txundo == spent.value.1
  {
    hide Sound, Live, SpendInput, Available, View.Contents, View.Best;
    ghost var u := Live(view.Contents());
    txundo := [];
    if !tx.IsCoinBase() {
      SpendNeverFails(u, tx.vin);
      for i := 0 to |tx.vin|
        invariant view.BaseUnmoved() && view.Best() == old(view.Best()) && view.pindexTip == old(view.pindexTip)
        invariant view.Grown()
        invariant Sound(Live(view.Contents()))
        invariant SpendInputs(u, tx.vin[..i]) == Some((Live(view.Contents()), txundo))
      {
        SpendPrefix(u, tx.vin, i);
        var undo := SpendOne(view, tx.vin[i].prevout);
        txundo := txundo + [undo];
      }
      assert tx.vin[..|tx.vin|] == tx.vin;
    }
    AddOutputsRaw(view.Contents(), tx, nHeight);
    view.SetCoins(tx.txid, FromTx(tx, nHeight));
  }

  lemma AddOutputsRaw(m: map<TxId, Coin>, tx: Tx, nHeight: int)
    requires Sound(Live(m)) && CheckTransaction(tx) && nHeight >= 1
    ensures Live(m[tx.txid := FromTx(tx, nHeight)]) == AddOutputs(Live(m), tx, nHeight)
    ensures Sound(Live(m[tx.txid := FromTx(tx, nHeight)]))
  {
    FromTxSound(tx, nHeight);
    LiveSet(m, tx.txid, FromTx(tx, nHeight));
  }

  lemma FromTxSound(tx: Tx, nHeight: int)
    requires CheckTransaction(tx)
    ensures FromTx(tx, nHeight).WellFormed() && !FromTx(tx, nHeight).IsPruned() && tx.vout != []
  {
    assert !tx.vout[0].IsNull();
  }

  lemma {:induction false} SpendPrefix(u: Utxo, vin: seq<TxIn>, i: nat)
    requires i < |vin| && SpendInputs(u, vin).Some?
    ensures SpendInputs(u, vin[..i + 1]).Some? && vin[..i + 1][..i] == vin[..i]
    decreases |vin|
  {
    if i + 1 < |vin| {
      SpendPrefix(u, vin[..|vin| - 1], i);
      assert vin[..|vin| - 1][..i + 1] == vin[..i + 1];
    } else {
      assert vin[..i + 1] == vin;
    }
  }

  lemma {:induction false} ConnectPrefix(rules: Rules, u: Utxo, txs: seq<Tx>, nHeight: int, nTime: nat, i: nat)
    requires i < |txs|
    ensures ConnectTxs(rules, u, txs[..i + 1], nHeight, nTime)
         == (var before := ConnectTxs(rules, u, txs[..i], nHeight, nTime);
             if before.None? then None else ConnectTx(rules, before.value, txs[i], nHeight, nTime))
    ensures ConnectTxs(rules, u, txs[..i + 1], nHeight, nTime).None? ==> ConnectTxs(rules, u, txs, nHeight, nTime).None?
    decreases |txs|
  {
    hide ConnectTx;
    if i + 1 < |txs| {
      ConnectPrefix(rules, u, txs[..|txs| - 1], nHeight, nTime, i);
      assert txs[..|txs| - 1][..i + 1] == txs[..i + 1] && txs[..|txs| - 1][..i] == txs[..i];
    } else {
      assert txs[..i + 1] == txs && txs[..i] == txs[..|txs| - 1];
    }
  }

  /** Connects one transaction after its predecessors, in the order of the code. */
  method ConnectOne(rules: Rules, tx: Tx, view: View, t: Tree, nHeight: nat, nTime: nat, ghost p: Progress,
                    nFeesIn: int, nSigOpsIn: nat, fScriptsIn: bool)
    returns (ok: bool, nFees: int, nSigOps: nat, fScripts: bool, txundo: TxUndo)
    requires view.Valid() && view.base != null && Sound(Live(view.Contents())) && nHeight >= 1 && CheckTransaction(tx)
    requires view.pindexTip.Some? && view.pindexTip.value in t && nHeight == t[view.pindexTip.value].nHeight + 1
    requires p.u == Live(view.Contents()) && p.nFees == nFeesIn && p.nSigOps == nSigOpsIn && p.fScripts == fScriptsIn
    modifies view.Repr
    ensures view.BaseUnmoved() && view.Best() == old(view.Best()) && view.pindexTip == old(view.pindexTip)
    ensures view.Grown()
    ensures ok == ConnectTx(rules, p, tx, nHeight, nTime).Some?
    ensures ok ==> Sound(Live(view.Contents()))
    ensures ok ==> (ConnectTx(rules, p, tx, nHeight, nTime).value
                    == Progress(Live(view.Contents()), if tx.IsCoinBase() then p.undo else p.undo + [txundo],
                                nFees, nSigOps, fScripts))
  {
    hide Sound, Live, SpendInputs, AddOutputs, Ledger.CheckInputs, Ledger.HaveInputs, AllScriptsOk, CheckTransaction,
         View.Contents, View.Best;
    txundo := [];
    nFees, nSigOps, fScripts := nFeesIn, nSigOpsIn + rules.legacySigOps(tx), fScriptsIn;
    if nSigOps > MAX_BLOCK_SIGOPS {
      return false, nFees, nSigOps, fScripts, txundo;
    }
    if !tx.IsCoinBase() {
      var have := HaveInputs(tx, view);
      if !have {
        return false, nFees, nSigOps, fScripts, txundo;
      }
      if nTime >= BIP16_SWITCH_TIME {
        var prevouts := GetOutputs(tx, view);
        nSigOps := nSigOps + rules.p2shSigOps(tx, prevouts);
        if nSigOps > MAX_BLOCK_SIGOPS {
          return false, nFees, nSigOps, fScripts, txundo;
        }
      }
      var nValueIn := GetValueIn(tx, view);
      nFees := nFees + (nValueIn - ValueOut(tx.vout));
      var fInputs, fChecks := CheckInputs(rules, tx, view, t, nHeight >= rules.scriptsFrom, BlockFlags(nTime));
      if !fInputs {
        return false, nFees, nSigOps, fScripts, txundo;
      }
      fScripts := fScripts && fChecks;
    }
    CoinBaseHasInputs(p.u, tx);
    txundo := UpdateCoins(tx, view, nHeight);
    ok := true;
  }

  lemma CoinBaseHasInputs(u: Utxo, tx: Tx)
    ensures tx.IsCoinBase() ==> Ledger.HaveInputs(u, tx)
  {
  }

  /** Everything `ConnectBlock` does between its header check and the writing of undo data. */
  method ConnectTransactions(rules: Rules, block: Block, view: View, t: Tree, nHeight: nat)
    returns (ok: bool, blockundo: BlockUndo)
    requires view.Valid() && view.base != null && Sound(Live(view.Contents())) && nHeight >= 1
    requires view.pindexTip.Some? && view.pindexTip.value in t && nHeight == t[view.pindexTip.value].nHeight + 1
    modifies view.Repr
    ensures view.BaseUnmoved() && view.Best() == old(view.Best()) && view.pindexTip == old(view.pindexTip)
    ensures view.Grown()
    ensures ok == Connect(rules, old(Live(view.Contents())), block, nHeight).Some?
    ensures ok ==>
              (Live(view.Contents()), blockundo) == Connect(rules, old(Live(view.Contents())), block, nHeight).value
    ensures ok ==> Sound(Live(view.Contents()))
  {
    hide View.Contents, View.Best, CheckTransaction;
    ghost var u := Live(view.Contents());
    blockundo := [];
    if !CheckBlock(rules, block) {
      return false, blockundo;
    }
    var txs := block.vtx;
    for i := 0 to |txs|
      invariant view.Unmoved()
      invariant forall k :: 0 <= k < i ==> txs[k].txid !in u
    {
      LiveAt(view.Contents(), txs[i].txid);
      var c := view.FetchCoins(txs[i].txid);
      if c.Some? && !c.value.IsPruned() {
        assert txs[i].txid in u;
        return false, blockundo;
      }
    }
    var nFees, nSigOps, fScripts := 0, 0, true;
    for i := 0 to |txs|
      invariant view.BaseUnmoved() && view.Best() == old(view.Best()) && view.pindexTip == old(view.pindexTip)
      invariant view.Grown()
      invariant Sound(Live(view.Contents()))
      invariant ConnectTxs(rules, u, txs[..i], nHeight, block.nTime)
             == Some(Progress(Live(view.Contents()), blockundo, nFees, nSigOps, fScripts))
    {
      ConnectPrefix(rules, u, txs, nHeight, block.nTime, i);
      var fOk, txundo;
      fOk, nFees, nSigOps, fScripts, txundo :=
        ConnectOne(rules, txs[i], view, t, nHeight, block.nTime,
                   ConnectTxs(rules, u, txs[..i], nHeight, block.nTime).value, nFees, nSigOps, fScripts);
      if !fOk {
        return false, blockundo;
      }
      if !txs[i].IsCoinBase() {
        blockundo := blockundo + [txundo];
      }
    }
    assert txs[..|txs|] == txs;
    if ValueOut(txs[0].vout) > BlockValue(nHeight, nFees) || !fScripts {
      return false, blockundo;
    }
    ok := true;
  }

  // ---- disconnecting ----

  method RemoveOne(tx: Tx, view: View, nHeight: int, fCleanIn: bool) returns (fClean: bool)
    requires view.Valid() && view.base != null && CheckTransaction(tx)
    modifies view.Repr
    ensures view.BaseUnmoved() && view.Best() == old(view.Best()) && view.pindexTip == old(view.pindexTip)
    ensures view.Grown()
    ensures Live(view.Contents()) == old(Live(view.Contents())) - {tx.txid} && tx.txid in view.Contents()
    ensures fClean == (fCleanIn && RemoveOutputs(old(Live(view.Contents())), tx, nHeight).Some?)
  {
    hide CheckTransaction, Live, View.Contents, View.Best;
    fClean := fCleanIn;
    FromTxSound(tx, nHeight);
    LiveAt(view.Contents(), tx.txid);
    var outs := view.FetchCoins(tx.txid);
    if outs == None {
      fClean := false;
      LiveSet(view.Contents(), tx.txid, EMPTY_COIN);
      view.SetCoins(tx.txid, EMPTY_COIN);
      outs := Some(EMPTY_COIN);
    }
    var outsBlock := FromTx(tx, nHeight);
    if outsBlock.nVersion < 0 {
      outs := Some(outs.value.(nVersion := outsBlock.nVersion));
    }
    if outs.value != outsBlock {
      fClean := false;
    }
    LiveSet(view.Contents(), tx.txid, EMPTY_COIN);
    view.SetCoins(tx.txid, EMPTY_COIN);
  }

  /** A fully spent entry left in a view cannot be told from a missing one, as long as the result is clean. */
  lemma RestoreIgnoresPruned(c: Coin, n: nat, undo: TxInUndo)
    requires c.IsPruned()
    ensures Restore(Some(c), n, undo).1 == Restore(None, n, undo).1
    ensures Restore(None, n, undo).1 ==> Restore(Some(c), n, undo) == Restore(None, n, undo)
  {
  }

  method RestoreOne(out: OutPoint, undo: TxInUndo, view: View, fCleanIn: bool) returns (fClean: bool)
    requires view.Valid() && view.base != null
    modifies view.Repr
    ensures view.BaseUnmoved() && view.Best() == old(view.Best()) && view.pindexTip == old(view.pindexTip)
    ensures view.Grown()
    ensures fClean == (fCleanIn && RestoreInput(old(Live(view.Contents())), out, undo).1)
    ensures fClean ==> Live(view.Contents()) == RestoreInput(old(Live(view.Contents())), out, undo).0
  {
    hide Live, View.Contents, View.Best;
    fClean := fCleanIn;
    ghost var m := view.Contents();
    LiveAt(m, out.hash);
    var fetched := view.FetchCoins(out.hash);
    var coins := if fetched.Some? then fetched.value else EMPTY_COIN;
    if undo.nHeight != 0 {
      if !coins.IsPruned() {
        fClean := false;
      }
      coins := Coin(undo.fCoinBase, [], undo.nHeight, undo.nVersion);
    } else if coins.IsPruned() {
      fClean := false;
    }
    if coins.IsAvailable(out.n) {
      fClean := false;
    }
    coins := coins.(vout := Resize(coins.vout, out.n + 1));
    coins := coins.(vout := coins.vout[out.n := undo.txout]);
    view.SetCoins(out.hash, coins);
    LiveSet(m, out.hash, coins);
    if fetched.Some? && fetched.value.IsPruned() {
      RestoreIgnoresPruned(fetched.value, out.n, undo);
    }
  }

  /** Restores the inputs of one transaction, last one first. */
  method RestoreAll(tx: Tx, txundo: TxUndo, view: View, fCleanIn: bool) returns (fClean: bool)
    requires view.Valid() && view.base != null && |txundo| == |tx.vin|
    modifies view.Repr
    ensures view.BaseUnmoved() && view.Best() == old(view.Best()) && view.pindexTip == old(view.pindexTip)
    ensures view.Grown()
    ensures fClean == (fCleanIn && RestoreInputs(old(Live(view.Contents())), tx.vin, txundo).Some?)
    ensures fClean ==> Some(Live(view.Contents())) == RestoreInputs(old(Live(view.Contents())), tx.vin, txundo)
  {
    hide RestoreInput, Live;
    ghost var goal := RestoreInputs(Live(view.Contents()), tx.vin, txundo);
    fClean := fCleanIn;
    assert tx.vin[..|tx.vin|] == tx.vin && txundo[..|tx.vin|] == txundo;
    for j := |tx.vin| downto 0
      invariant view.BaseUnmoved() && view.Best() == old(view.Best()) && view.pindexTip == old(view.pindexTip)
      invariant view.Grown()
      invariant fClean ==> fCleanIn && RestoreInputs(Live(view.Contents()), tx.vin[..j], txundo[..j]) == goal
      invariant !fClean ==> !fCleanIn || goal == None
    {
      assert tx.vin[..j + 1][..j] == tx.vin[..j] && txundo[..j + 1][..j] == txundo[..j];
      fClean := RestoreOne(tx.vin[j].prevout, txundo[j], view, fClean);
    }
  }

  /** Takes the block's transactions back, last one first. `fOk` is false when the block and its undo data
      do not belong together; `fClean` is false when something else than expected was found on the way. */
  method DisconnectTransactions(block: Block, undo: BlockUndo, view: View, nHeight: nat) returns (fOk: bool,
                                fClean: bool)
    requires view.Valid() && view.base != null && ShapeOk(block.vtx)
    modifies view.Repr
    ensures view.BaseUnmoved() && view.Best() == old(view.Best()) && view.pindexTip == old(view.pindexTip)
    ensures view.Grown()
    ensures fOk && fClean <==> Disconnect(old(Live(view.Contents())), block, undo, nHeight).Some?
    ensures fOk && fClean ==>
              Disconnect(old(Live(view.Contents())), block, undo, nHeight) == Some(Live(view.Contents()))
    ensures fOk && fClean ==> forall k :: 0 <= k < |block.vtx| ==> block.vtx[k].txid in view.Contents()
  {
    hide RemoveOutputs, RestoreInputs, Live, CheckTransaction, View.Contents, View.Best;
    ghost var goal := Disconnect(Live(view.Contents()), block, undo, nHeight);
    var txs := block.vtx;
    if |undo| + 1 != |txs| {
      return false, false;
    }
    fClean := true;
    assert txs[..|txs|] == txs && undo[..|txs| - 1] == undo;
    for i := |txs| downto 0
      invariant view.BaseUnmoved() && view.Best() == old(view.Best()) && view.pindexTip == old(view.pindexTip)
      invariant view.Grown()
      invariant fClean ==>
                  DisconnectTxs(Live(view.Contents()), txs[..i], undo[..if i == 0 then 0 else i - 1], nHeight) == goal
      invariant !fClean ==> goal == None
      invariant forall k :: i <= k < |txs| ==> txs[k].txid in view.Contents()
    {
      assert txs[..i + 1][..i] == txs[..i];
      assert i > 0 ==> undo[..i][..i - 1] == undo[..i - 1];
      RemoveOutputsIs(Live(view.Contents()), txs[i], nHeight);
      fClean := RemoveOne(txs[i], view, nHeight, fClean);
      if i > 0 {
        var txundo := undo[i - 1];
        if |txundo| != |txs[i].vin| {
          return false, fClean;
        }
        fClean := RestoreAll(txs[i], txundo, view, fClean);
      }
    }
    fOk := true;
  }

  lemma RemoveOutputsIs(u: Utxo, tx: Tx, nHeight: int)
    ensures RemoveOutputs(u, tx, nHeight).Some? ==> RemoveOutputs(u, tx, nHeight).value == u - {tx.txid}
  {
  }
}

/** Conservation of value: no accepted chain ever holds more unspent value than it was paid in subsidies. */
module Supply {
  import opened Coins
  import Powers
  import opened Ledger
  import opened BlockTree

  // ---- the value of a set of unspent outputs ----

  function UnspentValue(vout: seq<TxOut>): int {
    if vout == [] then 0
    else UnspentValue(vout[..|vout| - 1]) + if vout[|vout| - 1].IsNull() then 0 else vout[|vout| - 1].nValue
  }

  ghost function Total(u: Utxo): int {
    if u == map[] then 0
    else
      var id :| id in u;
      UnspentValue(u[id].vout) + Total(u - {id})
  }

  ghost predicate NonNegative(u: Utxo) {
    forall id <- u :: NonNegativeOuts(u[id].vout)
  }

  ghost predicate NonNegativeOuts(vout: seq<TxOut>) {
    forall i :: 0 <= i < |vout| ==> vout[i].IsNull() || vout[i].nValue >= 0
  }

  // ---- sums ----

  lemma {:induction false} TotalRemove(u: Utxo, id: TxId)
    requires id in u
    ensures Total(u) == UnspentValue(u[id].vout) + Total(u - {id})
    decreases |u|
  {
    var x :| x in u && Total(u) == UnspentValue(u[x].vout) + Total(u - {x});
    if x != id {
      TotalRemove(u - {x}, id);
      TotalRemove(u - {id}, x);
      assert u - {x} - {id} == u - {id} - {x};
    }
  }

  lemma TotalSet(u: Utxo, id: TxId, c: Coin)
    ensures Total(u[id := c]) == Total(u - {id}) + UnspentValue(c.vout)
  {
    TotalRemove(u[id := c], id);
    assert u[id := c] - {id} == u - {id};
  }

  lemma {:induction false} UnspentSet(vout: seq<TxOut>, n: nat)
    requires n < |vout| && !vout[n].IsNull()
    ensures UnspentValue(vout[n := NULL_OUT]) == UnspentValue(vout) - vout[n].nValue
  {
    var k := |vout| - 1;
    if n < k {
      UnspentSet(vout[..k], n);
      assert vout[n := NULL_OUT][..k] == vout[..k][n := NULL_OUT];
    } else {
      assert vout[n := NULL_OUT][..k] == vout[..k];
    }
  }

  lemma {:induction false} UnspentTrim(vout: seq<TxOut>)
    ensures UnspentValue(Trim(vout)) == UnspentValue(vout)
  {
    if vout != [] && vout[|vout| - 1].IsNull() {
      UnspentTrim(vout[..|vout| - 1]);
    }
  }

  lemma {:induction false} UnspentOfOutputs(vout: seq<TxOut>)
    requires forall i :: 0 <= i < |vout| ==> !vout[i].IsNull()
    ensures UnspentValue(vout) == ValueOut(vout)
  {
    if vout != [] {
      UnspentOfOutputs(vout[..|vout| - 1]);
    }
  }

  lemma {:induction false} UnspentNonNegative(vout: seq<TxOut>)
    requires NonNegativeOuts(vout)
    ensures UnspentValue(vout) >= 0
  {
    if vout != [] {
      UnspentNonNegative(vout[..|vout| - 1]);
    }
  }

  lemma {:induction false} TotalNonNegative(u: Utxo)
    requires NonNegative(u)
    ensures Total(u) >= 0
    decreases |u|
  {
    if u != map[] {
      var id :| id in u;
      TotalRemove(u, id);
      UnspentNonNegative(u[id].vout);
      TotalNonNegative(u - {id});
    }
  }

  // ---- one transaction ----

  function Value(u: Utxo, out: OutPoint): int
    requires Available(u, out)
  {
    u[out.hash].vout[out.n].nValue
  }

  lemma {:induction false} SpendInputValue(u: Utxo, out: OutPoint)
    requires Sound(u) && NonNegative(u) && Available(u, out)
    ensures var u' := SpendInput(u, out).0;
            && Sound(u') && NonNegative(u')
            && Total(u') == Total(u) - Value(u, out)
            && forall o :: Available(u', o) ==> Available(u, o) && Value(u', o) == Value(u, o)
  {
    hide Trimmed, Trim, Restore, UnspentValue, Total;
    SpendInputFacts(u, out);
    var c := u[out.hash];
    var left := Trim(c.vout[out.n := NULL_OUT]);
    UnspentSet(c.vout, out.n);
    UnspentTrim(c.vout[out.n := NULL_OUT]);
    TotalRemove(u, out.hash);
    TotalSet(u, out.hash, c.(vout := left));
    assert forall i :: 0 <= i < |left| ==> left[i] == c.vout[out.n := NULL_OUT][i];
    assert left == [] ==> UnspentValue(left) == 0 by {
      assert UnspentValue([]) == 0 by { NothingYet(); }
    }
  }

  lemma {:induction false} SpendInputsValue(u: Utxo, vin: seq<TxIn>)
    requires Sound(u) && NonNegative(u) && SpendInputs(u, vin).Some?
    requires forall i :: 0 <= i < |vin| ==> Available(u, vin[i].prevout)
    ensures var u' := SpendInputs(u, vin).value.0;
            && Sound(u') && NonNegative(u')
            && Total(u') == Total(u) - ValueIn(u, vin)
            && forall o :: Available(u', o) ==> Available(u, o) && Value(u', o) == Value(u, o)
  {
    hide Sound, NonNegative, SpendInput;
    if vin != [] {
      var k := |vin| - 1;
      SpendInputsValue(u, vin[..k]);
      SpendInputValue(SpendInputs(u, vin[..k]).value.0, vin[k].prevout);
      assert Available(u, vin[k].prevout);
      assert Value(u, vin[k].prevout) == u[vin[k].prevout.hash].vout[vin[k].prevout.n].nValue;
    }
  }

  /** A transaction moves value between unspent outputs and fees; only a coinbase creates any. */
  lemma ConnectTxValue(rules: Rules, p: Progress, tx: Tx, nHeight: nat, nTime: nat)
    requires Sound(p.u) && NonNegative(p.u) && nHeight >= 1 && tx.txid !in p.u && CheckTransaction(tx)
    requires ConnectTx(rules, p, tx, nHeight, nTime).Some?
    ensures var p' := ConnectTx(rules, p, tx, nHeight, nTime).value;
            && NonNegative(p'.u) && p'.nFees >= p.nFees
            && Total(p'.u) + p'.nFees == Total(p.u) + p.nFees + if tx.IsCoinBase() then ValueOut(tx.vout) else 0
  {
    hide SpendInputs, Available, PrevOuts, ValueIn, Sound;
    var p' := ConnectTx(rules, p, tx, nHeight, nTime).value;
    var spent := p.u;
    if !tx.IsCoinBase() {
      SpendInputsValue(p.u, tx.vin);
      SpendInputsFacts(p.u, tx.vin);
      spent := SpendInputs(p.u, tx.vin).value.0;
    }
    assert spent - {tx.txid} == spent;
    UnspentOfOutputs(tx.vout);
    TotalSet(spent, tx.txid, FromTx(tx, nHeight));
  }

  lemma {:induction false} ConnectTxsValue(rules: Rules, u: Utxo, txs: seq<Tx>, nHeight: nat, nTime: nat)
    requires Sound(u) && NonNegative(u) && nHeight >= 1 && NoOverwrite(u, txs)
    requires txs != [] ==> ShapeOk(txs)
    requires ConnectTxs(rules, u, txs, nHeight, nTime).Some?
    ensures var p := ConnectTxs(rules, u, txs, nHeight, nTime).value;
            && NonNegative(p.u) && p.nFees >= 0
            && Total(p.u) + p.nFees == Total(u) + if txs == [] then 0 else ValueOut(txs[0].vout)
  {
    hide ConnectTx, Sound, NonNegative, CheckTransaction;
    if txs != [] {
      var k := |txs| - 1;
      var init := txs[..k];
      assert forall i :: 0 <= i < k ==> init[i] == txs[i];
      ConnectTxsValue(rules, u, init, nHeight, nTime);
      ConnectTxsFacts(rules, u, init, nHeight, nTime);
      ConnectTxValue(rules, ConnectTxs(rules, u, init, nHeight, nTime).value, txs[k], nHeight, nTime);
    }
  }

  // ---- subsidies ----

  const ERA: nat := 1_051_200
  const SUPPLY_LIMIT: int := 888_901_174 * COIN

  /** Sum of the subsidies of the blocks at heights 1 to `nHeight`. */
  function Subsidies(nHeight: nat): int {
    if nHeight == 0 then 0 else Subsidies(nHeight - 1) + Subsidy(nHeight)
  }

  function EraSubsidy(k: nat): nat {
    Powers.Shr(413 * COIN, k)
  }

  /** What has been paid by height `nHeight`, plus an upper bound for all that is still to come. */
  function Ceiling(nHeight: nat): int {
    Subsidies(nHeight) + (2 * ERA - 1 - nHeight % ERA) * EraSubsidy(nHeight / ERA)
  }

  lemma {:induction false} EarlySubsidies(nHeight: nat)
    requires 1 <= nHeight <= 99
    ensures Subsidies(nHeight) == 20_650_000 * COIN + 13 * COIN * (nHeight - 1)
  {
    if nHeight > 1 {
      EarlySubsidies(nHeight - 1);
    }
  }

  lemma CeilingStep(nHeight: nat)
    requires nHeight >= 99
    ensures Ceiling(nHeight + 1) <= Ceiling(nHeight)
  {
    var k, left := nHeight / ERA, 2 * ERA - 1 - nHeight % ERA;
    if nHeight % ERA < ERA - 1 {
      assert (nHeight + 1) / ERA == k && (nHeight + 1) % ERA == nHeight % ERA + 1;
      assert (left - 1) * EraSubsidy(k) + EraSubsidy(k) == left * EraSubsidy(k);
    } else {
      assert (nHeight + 1) / ERA == k + 1 && (nHeight + 1) % ERA == 0;
      assert EraSubsidy(k + 1) == EraSubsidy(k) / 2;
    }
  }

  lemma CeilingStart()
    ensures Ceiling(99) == SUPPLY_LIMIT
  {
    EarlySubsidies(99);
    assert 99 / ERA == 0 && 99 % ERA == 99;
    assert EraSubsidy(0) == 413 * COIN;
  }

  lemma {:induction false} CeilingCovers(nHeight: nat)
    ensures Subsidies(nHeight) <= Ceiling(nHeight)
  {
    var left := 2 * ERA - 1 - nHeight % ERA;
    assert left * EraSubsidy(nHeight / ERA) >= 0;
  }

  lemma {:induction false} CeilingBounded(nHeight: nat)
    requires nHeight >= 99
    ensures Ceiling(nHeight) <= SUPPLY_LIMIT
  {
    hide Ceiling;
    if nHeight == 99 {
      CeilingStart();
    } else {
      CeilingBounded(nHeight - 1);
      CeilingStep(nHeight - 1);
    }
  }

  /** All subsidies ever paid stay below the limit. */
  lemma {:induction false} SubsidiesBounded(nHeight: nat)
    ensures Subsidies(nHeight) <= SUPPLY_LIMIT
  {
    hide Ceiling;
    if nHeight >= 99 {
      CeilingBounded(nHeight);
      CeilingCovers(nHeight);
    } else if nHeight >= 1 {
      EarlySubsidies(nHeight);
    }
  }

  // ---- whole chains ----

  /** Connecting a block adds at most its subsidy; what the fees lose, the coinbase may collect. */
  lemma {:induction false} ConnectValue(rules: Rules, u: Utxo, block: Block, nHeight: nat)
    requires Sound(u) && NonNegative(u) && nHeight >= 1 && Connect(rules, u, block, nHeight).Some?
    ensures var u' := Connect(rules, u, block, nHeight).value.0;
            NonNegative(u') && Total(u') <= Total(u) + Subsidy(nHeight)
  {
    ConnectTxsValue(rules, u, block.vtx, nHeight, block.nTime);
  }

  /** The unspent value at the end of any branch that connects is at most the subsidies paid along it,
      and so below the largest amount that is valid at all. */
  lemma {:induction false} SupplyBounded(rules: Rules, t: Tree, genesis: BlockHash, blocks: map<BlockHash, Block>,
                                         p: Ptr)
    requires TreeOk(t, genesis) && Known(t, p) && t.Keys <= blocks.Keys
    requires Replay(rules, t, genesis, blocks, p).Some?
    ensures var u := Replay(rules, t, genesis, blocks, p).value;
            && NonNegative(u)
            && 0 <= Total(u) <= Subsidies(if p.None? then 0 else t[p.value].nHeight) <= SUPPLY_LIMIT < MAX_MONEY
    decreases Height(t, p) + 1
  {
    hide Connect, Sound, NonNegative, Total;
    var u := Replay(rules, t, genesis, blocks, p).value;
    if p.Some? && p.value != genesis {
      var prev := Parent(t, genesis, p.value);
      SupplyBounded(rules, t, genesis, blocks, prev);
      ReplaySound(rules, t, genesis, blocks, prev);
      ConnectValue(rules, Replay(rules, t, genesis, blocks, prev).value, blocks[p.value], t[p.value].nHeight);
    } else {
      NothingYet();
    }
    TotalNonNegative(u);
    SubsidiesBounded(if p.None? then 0 else t[p.value].nHeight);
  }

  lemma NothingYet()
    ensures NonNegative(map[]) && Total(map[]) == 0 && UnspentValue([]) == 0
  {
  }

  /** The value of a transaction's inputs, all of them available and none repeated, is at most all there is. */
  lemma {:induction false} InputsBounded(u: Utxo, vin: seq<TxIn>)
    requires Sound(u) && NonNegative(u) && DistinctInputs(vin)
    requires forall i :: 0 <= i < |vin| ==> Available(u, vin[i].prevout)
    ensures ValueIn(u, vin) <= Total(u)
  {
    hide Sound, NonNegative, Total;
    SpendNeverFails(u, vin);
    SpendInputsValue(u, vin);
    TotalNonNegative(SpendInputs(u, vin).value.0);
  }

  /** Wherever on top of any branch the loop over a block's transactions stands, what it has added up, and adds next
      before it checks the inputs that are there, fits a signed 64-bit integer. */
  lemma {:induction false} FeesFit(rules: Rules, t: Tree, genesis: BlockHash, blocks: map<BlockHash, Block>, prev: Ptr,
                                   txs: seq<Tx>, k: nat, nHeight: nat, nTime: nat)
    requires TreeOk(t, genesis) && Known(t, prev) && t.Keys <= blocks.Keys
    requires Replay(rules, t, genesis, blocks, prev).Some? && nHeight >= 1
    requires var u := Replay(rules, t, genesis, blocks, prev).value;
             && 0 < k < |txs| && ShapeOk(txs) && NoOverwrite(u, txs)
             && ConnectTxs(rules, u, txs[..k], nHeight, nTime).Some?
             && HaveInputs(ConnectTxs(rules, u, txs[..k], nHeight, nTime).value.u, txs[k])
    ensures var p := ConnectTxs(rules, Replay(rules, t, genesis, blocks, prev).value, txs[..k], nHeight, nTime).value;
            var nValueIn, nValueOut := ValueIn(p.u, txs[k].vin), ValueOut(txs[k].vout);
            && 0 <= p.nFees && 0 <= nValueIn && p.nFees + nValueIn <= SUPPLY_LIMIT + MAX_MONEY
            && 0 <= nValueOut <= MAX_MONEY
            && -MAX_MONEY <= nValueIn - nValueOut && p.nFees + (nValueIn - nValueOut) < 0x8000_0000_0000_0000
  {
    hide ConnectTxs, NonNegative, Total, Sound, CheckTransaction;
    var u := Replay(rules, t, genesis, blocks, prev).value;
    var init := txs[..k];
    assert forall i :: 0 <= i < k ==> init[i] == txs[i];
    SupplyBounded(rules, t, genesis, blocks, prev);
    ReplaySound(rules, t, genesis, blocks, prev);
    ConnectTxsValue(rules, u, init, nHeight, nTime);
    ConnectTxsFacts(rules, u, init, nHeight, nTime);
    var p := ConnectTxs(rules, u, init, nHeight, nTime).value;
    CheckedInputs(txs[k]);
    InputsBounded(p.u, txs[k].vin);
    InputsNonNegative(p.u, txs[k].vin);
    OutputsBounded(txs[0]);
    OutputsBounded(txs[k]);
  }

  lemma CheckedInputs(tx: Tx)
    requires CheckTransaction(tx)
    ensures DistinctInputs(tx.vin)
  {
  }

  lemma {:induction false} InputsNonNegative(u: Utxo, vin: seq<TxIn>)
    requires NonNegative(u) && forall i :: 0 <= i < |vin| ==> Available(u, vin[i].prevout)
    ensures ValueIn(u, vin) >= 0
  {
    if vin != [] {
      InputsNonNegative(u, vin[..|vin| - 1]);
      assert Available(u, vin[|vin| - 1].prevout);
    }
  }

  lemma OutputsBounded(tx: Tx)
    requires CheckTransaction(tx)
    ensures MoneyRange(ValueOut(tx.vout))
  {
    assert tx.vout[..|tx.vout|] == tx.vout;
  }
}

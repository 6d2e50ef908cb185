/** The set of unspent outputs as a value: what connecting and disconnecting a block do to it. */
module Ledger {
  import opened Options
  import opened Coins
  import Powers

  const COINBASE_MATURITY: int := 30
  const MAX_BLOCK_SIGOPS: nat := 20000

  type BlockHash = nat

  datatype Block = Block(hash: BlockHash, vtx: seq<Tx>, nTime: nat)

  type BlockUndo = seq<TxUndo>

  /** Records of transactions with at least one unspent output. */
  type Utxo = map<TxId, Coin>

  ghost predicate Sound(u: Utxo) {
    forall id <- u :: u[id].WellFormed() && u[id].vout != [] && u[id].nHeight >= 1
  }

  /** An entry that is missing and one that is fully spent mean the same. */
  function Live(m: map<TxId, Coin>): Utxo {
    map id | id in m && !m[id].IsPruned() :: m[id]
  }

  predicate Available(u: Utxo, out: OutPoint) {
    out.hash in u && u[out.hash].IsAvailable(out.n)
  }

  // ---- amounts ----

  function ValueOut(vout: seq<TxOut>): int {
    if vout == [] then 0 else ValueOut(vout[..|vout| - 1]) + vout[|vout| - 1].nValue
  }

  function ValueIn(u: Utxo, vin: seq<TxIn>): int
    requires forall i :: 0 <= i < |vin| ==> Available(u, vin[i].prevout)
  {
    if vin == [] then 0
    else
      var out := vin[|vin| - 1].prevout;
      assert Available(u, out);
      ValueIn(u, vin[..|vin| - 1]) + u[out.hash].vout[out.n].nValue
  }

  function BlockValue(nHeight: nat, nFees: int): int {
    Subsidy(nHeight) + nFees
  }

  function Subsidy(nHeight: nat): (s: int)
    ensures s >= 0
  {
    var nSubsidy := if nHeight < 2 then 20_650_000 * COIN else if nHeight < 100 then 13 * COIN else 413 * COIN;
    Powers.Shr(nSubsidy, nHeight / 1_051_200)
  }

  // ---- what the ledger does not decide itself ----

  /** Proof of work, sizes, merkle root and coinbase script (`headerOk`), signature-operation counts,
      script verification of input `i` against the output it spends, under given flags, and the height from which
      scripts are verified at all. */
  datatype Rules = Rules(
    headerOk: Block -> bool,
    legacySigOps: Tx -> nat,
    p2shSigOps: (Tx, seq<TxOut>) -> nat,
    scriptOk: (Tx, nat, TxOut, Flags) -> bool,
    scriptsFrom: nat)

  /** Whether pay-to-script-hash is in force, and whether signatures and keys have to be encoded strictly. */
  datatype Flags = Flags(fPayToScriptHash: bool, fStrictEncoding: bool)

  /** The flags for the scripts of a block, by its time, and those for transactions outside of blocks. */
  function BlockFlags(nTime: nat): Flags {
    Flags(nTime >= BIP16_SWITCH_TIME, false)
  }

  const POOL_FLAGS := Flags(true, true)

  const BIP16_SWITCH_TIME: nat := 1_349_049_600

  // ---- context-free checks ----

  predicate CheckTransaction(tx: Tx) {
    && tx.vin != [] && tx.vout != []
    && (forall i :: 0 <= i < |tx.vout| ==> MoneyRange(tx.vout[i].nValue))
    && (forall k :: 0 <= k <= |tx.vout| ==> MoneyRange(ValueOut(tx.vout[..k])))
    && DistinctInputs(tx.vin)
    && (!tx.IsCoinBase() ==> forall i :: 0 <= i < |tx.vin| ==> !tx.vin[i].prevout.IsNull())
  }

  predicate DistinctInputs(vin: seq<TxIn>) {
    forall i, j :: 0 <= i < j < |vin| ==> vin[i].prevout != vin[j].prevout
  }

  predicate CheckBlock(rules: Rules, block: Block) {
    && rules.headerOk(block)
    && ShapeOk(block.vtx)
  }

  predicate ShapeOk(txs: seq<Tx>) {
    && txs != []
    && (forall i :: 0 <= i < |txs| ==> (txs[i].IsCoinBase() <==> i == 0))
    && (forall i :: 0 <= i < |txs| ==> CheckTransaction(txs[i]))
    && (forall i, j :: 0 <= i < j < |txs| ==> txs[i].txid != txs[j].txid)
  }

  // ---- spending and restoring ----

  function SpendInput(u: Utxo, out: OutPoint): (Utxo, TxInUndo)
    requires Available(u, out)
  {
    var (c, undo) := Spend(u[out.hash], out.n);
    (if c.vout == [] then u - {out.hash} else u[out.hash := c], undo)
  }

  function SpendInputs(u: Utxo, vin: seq<TxIn>): Option<(Utxo, TxUndo)> {
    if vin == [] then Some((u, []))
    else
      var before := SpendInputs(u, vin[..|vin| - 1]);
      var out := vin[|vin| - 1].prevout;
      if before.None? || !Available(before.value.0, out) then None
      else
        var (u', undo) := SpendInput(before.value.0, out);
        Some((u', before.value.1 + [undo]))
  }

  function RestoreInput(u: Utxo, out: OutPoint, undo: TxInUndo): (Utxo, bool) {
    var (c, clean) := Restore(if out.hash in u then Some(u[out.hash]) else None, out.n, undo);
    (if c.IsPruned() then u - {out.hash} else u[out.hash := c], clean)
  }

  function RestoreInputs(u: Utxo, vin: seq<TxIn>, undo: TxUndo): Option<Utxo>
    requires |vin| == |undo|
    decreases |vin|
  {
    if vin == [] then Some(u)
    else
      var k := |vin| - 1;
      var (u', clean) := RestoreInput(u, vin[k].prevout, undo[k]);
      if clean then RestoreInputs(u', vin[..k], undo[..k]) else None
  }

  // ---- one block ----

  /** State of the loop over a block's transactions. */
  datatype Progress = Progress(u: Utxo, undo: BlockUndo, nFees: int, nSigOps: nat, fScripts: bool)

  predicate HaveInputs(u: Utxo, tx: Tx) {
    tx.IsCoinBase() || forall i :: 0 <= i < |tx.vin| ==> Available(u, tx.vin[i].prevout)
  }

  /** Maturity and value ranges of the inputs; `nHeight` is the height of the spending block. */
  predicate CheckInputs(u: Utxo, tx: Tx, nHeight: int)
    requires !tx.IsCoinBase() && HaveInputs(u, tx)
  {
    && (forall i :: 0 <= i < |tx.vin| ==> InputOk(u, tx, nHeight, i))
    && ValueIn(u, tx.vin) >= ValueOut(tx.vout)
    && MoneyRange(ValueIn(u, tx.vin) - ValueOut(tx.vout))
  }

  predicate InputOk(u: Utxo, tx: Tx, nHeight: int, i: nat)
    requires !tx.IsCoinBase() && HaveInputs(u, tx) && i < |tx.vin|
  {
    var c := u[tx.vin[i].prevout.hash];
    && (c.fCoinBase ==> nHeight - c.nHeight >= COINBASE_MATURITY)
    && MoneyRange(c.vout[tx.vin[i].prevout.n].nValue)
    && MoneyRange(ValueIn(u, tx.vin[..i + 1]))
  }

  function PrevOuts(u: Utxo, tx: Tx): seq<TxOut>
    requires !tx.IsCoinBase() && HaveInputs(u, tx)
  {
    seq(|tx.vin|, i requires 0 <= i < |tx.vin| => u[tx.vin[i].prevout.hash].vout[tx.vin[i].prevout.n])
  }

  /** All inputs' scripts. */
  predicate AllScriptsOk(rules: Rules, u: Utxo, tx: Tx, flags: Flags)
    requires !tx.IsCoinBase() && HaveInputs(u, tx)
  {
    forall i :: 0 <= i < |tx.vin| ==> rules.scriptOk(tx, i, PrevOuts(u, tx)[i], flags)
  }

  predicate ScriptsOk(rules: Rules, u: Utxo, tx: Tx, nHeight: int, nTime: nat)
    requires !tx.IsCoinBase() && HaveInputs(u, tx)
  {
    nHeight >= rules.scriptsFrom ==> AllScriptsOk(rules, u, tx, BlockFlags(nTime))
  }

  function AddOutputs(u: Utxo, tx: Tx, nHeight: int): Utxo {
    u[tx.txid := FromTx(tx, nHeight)]
  }

  function ConnectTx(rules: Rules, p: Progress, tx: Tx, nHeight: int, nTime: nat): Option<Progress> {
    var nSigOps := p.nSigOps + rules.legacySigOps(tx);
    if nSigOps > MAX_BLOCK_SIGOPS then None
    else if tx.IsCoinBase() then Some(p.(u := AddOutputs(p.u, tx, nHeight), nSigOps := nSigOps))
    else if !HaveInputs(p.u, tx) then None
    else
      var nSigOps := nSigOps + if nTime >= BIP16_SWITCH_TIME then rules.p2shSigOps(tx, PrevOuts(p.u, tx)) else 0;
      var spent := SpendInputs(p.u, tx.vin);
      if nSigOps > MAX_BLOCK_SIGOPS || !CheckInputs(p.u, tx, nHeight) || spent.None? then None
      else Some(Progress(AddOutputs(spent.value.0, tx, nHeight), p.undo + [spent.value.1],
                         p.nFees + (ValueIn(p.u, tx.vin) - ValueOut(tx.vout)), nSigOps,
                         p.fScripts && ScriptsOk(rules, p.u, tx, nHeight, nTime)))
  }

  function ConnectTxs(rules: Rules, u: Utxo, txs: seq<Tx>, nHeight: int, nTime: nat): Option<Progress> {
    if txs == [] then Some(Progress(u, [], 0, 0, true))
    else
      var before := ConnectTxs(rules, u, txs[..|txs| - 1], nHeight, nTime);
      if before.None? then None else ConnectTx(rules, before.value, txs[|txs| - 1], nHeight, nTime)
  }

  /** No transaction of the block overwrites one that still has unspent outputs. */
  predicate NoOverwrite(u: Utxo, txs: seq<Tx>) {
    forall i :: 0 <= i < |txs| ==> txs[i].txid !in u
  }

  function Connect(rules: Rules, u: Utxo, block: Block, nHeight: nat): Option<(Utxo, BlockUndo)> {
    if !CheckBlock(rules, block) || !NoOverwrite(u, block.vtx) then None
    else
      var r := ConnectTxs(rules, u, block.vtx, nHeight, block.nTime);
      if r.None? || ValueOut(block.vtx[0].vout) > BlockValue(nHeight, r.value.nFees) || !r.value.fScripts then None
      else Some((r.value.u, r.value.undo))
  }

  /** Removes the outputs of the block's last transaction, if they are all there. */
  function RemoveOutputs(u: Utxo, tx: Tx, nHeight: int): Option<Utxo> {
    if tx.txid !in u then None
    else
      var outs := if tx.nVersion < 0 then u[tx.txid].(nVersion := tx.nVersion) else u[tx.txid];
      if outs == FromTx(tx, nHeight) then Some(u - {tx.txid}) else None
  }

  function DisconnectTxs(u: Utxo, txs: seq<Tx>, undo: BlockUndo, nHeight: int): Option<Utxo>
    requires txs != [] ==> |txs| == |undo| + 1
    decreases |txs|
  {
    if txs == [] then Some(u)
    else
      var i := |txs| - 1;
      var removed := RemoveOutputs(u, txs[i], nHeight);
      if removed.None? then None
      else if i == 0 then removed
      else if |undo[i - 1]| != |txs[i].vin| then None
      else
        var restored := RestoreInputs(removed.value, txs[i].vin, undo[i - 1]);
        if restored.None? then None else DisconnectTxs(restored.value, txs[..i], undo[..i - 1], nHeight)
  }

  /** The set before the block, or None if the undo data does not fit what is there. */
  function Disconnect(u: Utxo, block: Block, undo: BlockUndo, nHeight: nat): Option<Utxo> {
    if |undo| + 1 != |block.vtx| then None else DisconnectTxs(u, block.vtx, undo, nHeight)
  }

  // ---- spending ----

  predicate Consumes(vin: seq<TxIn>, o: OutPoint) {
    exists i :: 0 <= i < |vin| && vin[i].prevout == o
  }

  lemma SpendInputFacts(u: Utxo, out: OutPoint)
    requires Sound(u) && Available(u, out)
    ensures var (u', undo) := SpendInput(u, out);
            && Sound(u') && u'.Keys <= u.Keys
            && RestoreInput(u', out, undo) == (u, true)
            && forall o :: Available(u', o) <==> Available(u, o) && o != out
  {
    hide Spend, Restore, Trimmed;
    RestoreUndoesSpend(u[out.hash], out.n);
    var (u', undo) := SpendInput(u, out);
    assert u'[out.hash := u[out.hash]] == u;
  }

  /** Spending the inputs of a transaction and restoring them with the undo data is the identity. */
  lemma {:induction false} SpendInputsFacts(u: Utxo, vin: seq<TxIn>)
    requires Sound(u) && SpendInputs(u, vin).Some?
    ensures var (u', undo) := SpendInputs(u, vin).value;
            && Sound(u') && u'.Keys <= u.Keys && |undo| == |vin|
            && RestoreInputs(u', vin, undo) == Some(u)
            && forall o :: Available(u', o) <==> Available(u, o) && !Consumes(vin, o)
  {
    hide Sound, SpendInput, RestoreInput, Available;
    if vin != [] {
      var k := |vin| - 1;
      var init := vin[..k];
      SpendInputsFacts(u, init);
      var (u1, undo1) := SpendInputs(u, init).value;
      SpendInputFacts(u1, vin[k].prevout);
      var (u', undo) := SpendInputs(u, vin).value;
      assert undo[..k] == undo1;
      forall o ensures Consumes(vin, o) <==> Consumes(init, o) || o == vin[k].prevout {
        assert vin == init + [vin[k]];
      }
    }
  }

  /** A transaction without repeated inputs whose inputs are all there can be spent to the end:
      the assertion in the update of the coins never fires. */
  lemma {:induction false} SpendNeverFails(u: Utxo, vin: seq<TxIn>)
    requires Sound(u) && DistinctInputs(vin)
    requires forall i :: 0 <= i < |vin| ==> Available(u, vin[i].prevout)
    ensures SpendInputs(u, vin).Some?
  {
    hide Sound, SpendInput, Available, Consumes, DistinctInputs;
    if vin != [] {
      var k := |vin| - 1;
      LastIsNew(vin);
      SpendNeverFails(u, vin[..k]);
      SpendInputsFacts(u, vin[..k]);
    }
  }

  lemma LastIsNew(vin: seq<TxIn>)
    requires vin != [] && DistinctInputs(vin)
    ensures DistinctInputs(vin[..|vin| - 1]) && !Consumes(vin[..|vin| - 1], vin[|vin| - 1].prevout)
  {
  }

  // ---- connecting and disconnecting ----

  lemma ConnectTxFacts(rules: Rules, p: Progress, tx: Tx, nHeight: nat, nTime: nat)
    requires Sound(p.u) && nHeight >= 1 && tx.txid !in p.u && CheckTransaction(tx)
    requires ConnectTx(rules, p, tx, nHeight, nTime).Some?
    ensures var p' := ConnectTx(rules, p, tx, nHeight, nTime).value;
            && Sound(p'.u) && p'.u.Keys <= p.u.Keys + {tx.txid}
            && var removed := RemoveOutputs(p'.u, tx, nHeight);
            && removed.Some?
            && if tx.IsCoinBase() then p'.undo == p.undo && removed.value == p.u
               else && |p'.undo| == |p.undo| + 1 && p'.undo[..|p.undo|] == p.undo
                    && |p'.undo[|p.undo|]| == |tx.vin|
                    && RestoreInputs(removed.value, tx.vin, p'.undo[|p.undo|]) == Some(p.u)
  {
    hide SpendInputs, RestoreInputs, CheckInputs, PrevOuts, ValueIn, ValueOut, Available;
    var p' := ConnectTx(rules, p, tx, nHeight, nTime).value;
    var spent := p.u;
    if !tx.IsCoinBase() {
      SpendInputsFacts(p.u, tx.vin);
      spent := SpendInputs(p.u, tx.vin).value.0;
    }
    assert p'.u == AddOutputs(spent, tx, nHeight);
    assert p'.u - {tx.txid} == spent;
    assert FromTx(tx, nHeight).WellFormed();
  }

  lemma {:induction false} ConnectTxsFacts(rules: Rules, u: Utxo, txs: seq<Tx>, nHeight: nat, nTime: nat)
    requires Sound(u) && nHeight >= 1 && NoOverwrite(u, txs)
    requires txs != [] ==> ShapeOk(txs)
    requires ConnectTxs(rules, u, txs, nHeight, nTime).Some?
    ensures var p := ConnectTxs(rules, u, txs, nHeight, nTime).value;
            && Sound(p.u)
            && |p.undo| == (if txs == [] then 0 else |txs| - 1)
            && p.u.Keys <= u.Keys + Ids(txs)
            && DisconnectTxs(p.u, txs, p.undo, nHeight) == Some(u)
  {
    hide ConnectTx, RemoveOutputs, RestoreInputs, Sound, CheckTransaction;
    if txs != [] {
      var k := |txs| - 1;
      var tx, init := txs[k], txs[..k];
      assert forall i :: 0 <= i < k ==> init[i] == txs[i];
      ConnectTxsFacts(rules, u, init, nHeight, nTime);
      ConnectTxFacts(rules, ConnectTxs(rules, u, init, nHeight, nTime).value, tx, nHeight, nTime);
    }
  }

  function Ids(txs: seq<Tx>): set<TxId> {
    set i | 0 <= i < |txs| :: txs[i].txid
  }

  /** Disconnecting a block right after connecting it gives back exactly the previous unspent outputs,
      with their heights, versions and coinbase flags, and reports clean. */
  lemma DisconnectUndoesConnect(rules: Rules, u: Utxo, block: Block, nHeight: nat)
    requires Sound(u) && nHeight >= 1 && Connect(rules, u, block, nHeight).Some?
    ensures var (u', undo) := Connect(rules, u, block, nHeight).value;
            Sound(u') && Disconnect(u', block, undo, nHeight) == Some(u)
  {
    ConnectTxsFacts(rules, u, block.vtx, nHeight, block.nTime);
  }
}

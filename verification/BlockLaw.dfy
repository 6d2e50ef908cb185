/** What a block has to be like to connect, told in numbers and by the transactions it spends from, with no reference to
    how it is connected. */
module BlockLaw {
  import opened Options
  import opened Coins
  import opened Ledger
  import opened BlockTree
  import opened Availability
  import opened Maturity
  import Powers

  // ---- sums ----

  function Sum(xs: seq<int>): int {
    if xs == [] then 0 else Sum(xs[..|xs| - 1]) + xs[|xs| - 1]
  }

  function Values(vout: seq<TxOut>): seq<int> {
    seq(|vout|, i requires 0 <= i < |vout| => vout[i].nValue)
  }

  lemma {:induction false} SumGrows(xs: seq<int>, k: nat)
    requires k <= |xs| && forall i :: 0 <= i < |xs| ==> xs[i] >= 0
    ensures 0 <= Sum(xs[..k]) <= Sum(xs)
    decreases |xs|
  {
    if k < |xs| {
      var init := xs[..|xs| - 1];
      SumGrows(init, k);
      assert init[..k] == xs[..k];
    } else {
      assert xs[..k] == xs;
      if k > 0 {
        SumGrows(xs[..k - 1], k - 1);
      }
    }
  }

  lemma {:induction false} PartAtMost(xs: seq<int>, k: nat)
    requires k < |xs| && forall i :: 0 <= i < |xs| ==> xs[i] >= 0
    ensures 0 <= xs[k] <= Sum(xs)
  {
    SumGrows(xs, k);
    SumGrows(xs, k + 1);
    assert xs[..k + 1][..k] == xs[..k];
  }

  lemma {:induction false} ValueOutIs(vout: seq<TxOut>)
    ensures ValueOut(vout) == Sum(Values(vout))
  {
    if vout != [] {
      var init := vout[..|vout| - 1];
      ValueOutIs(init);
      assert Values(vout)[..|vout| - 1] == Values(init);
    }
  }

  // ---- a transaction by itself ----

  predicate Minting(tx: Tx) {
    |tx.vin| == 1 && tx.vin[0].prevout == OutPoint(0, 0xFFFF_FFFF)
  }

  /** It takes something and makes something, nothing negative and no more than can be, takes nothing twice, and takes
      the null output only to mint. */
  ghost predicate TxLaw(tx: Tx) {
    && |tx.vin| >= 1 && |tx.vout| >= 1
    && (forall i :: 0 <= i < |tx.vout| ==> tx.vout[i].nValue >= 0)
    && Sum(Values(tx.vout)) <= 206_500_000_000_000_000
    && (forall i, j :: 0 <= i < j < |tx.vin| ==> tx.vin[i].prevout != tx.vin[j].prevout)
    && (forall i :: 0 <= i < |tx.vin| && tx.vin[i].prevout == OutPoint(0, 0xFFFF_FFFF) ==> |tx.vin| == 1)
  }

  lemma CheckTransactionIff(tx: Tx)
    ensures CheckTransaction(tx) <==> TxLaw(tx)
  {
    var values := Values(tx.vout);
    forall k | 0 <= k <= |tx.vout| ensures ValueOut(tx.vout[..k]) == Sum(values[..k]) {
      ValueOutIs(tx.vout[..k]);
      assert Values(tx.vout[..k]) == values[..k];
    }
    assert values[..|values|] == values && tx.vout[..|tx.vout|] == tx.vout;
    if forall i :: 0 <= i < |tx.vout| ==> tx.vout[i].nValue >= 0 {
      forall k | 0 <= k <= |tx.vout| ensures 0 <= Sum(values[..k]) <= Sum(values) {
        SumGrows(values, k);
      }
      forall i | 0 <= i < |tx.vout| ensures tx.vout[i].nValue <= Sum(values) {
        PartAtMost(values, i);
      }
    }
  }

  // ---- its inputs ----

  function OutputAt(content: Content, o: OutPoint): TxOut {
    if o.n < |content(o.hash).vout| then content(o.hash).vout[o.n] else TxOut(-1, [])
  }

  /** The outputs that it spends. */
  function Spent(content: Content, tx: Tx): seq<TxOut> {
    seq(|tx.vin|, i requires 0 <= i < |tx.vin| => OutputAt(content, tx.vin[i].prevout))
  }

  /** All is there, deep enough if it is from a coinbase, and worth no more than can be but at least what is made of
      it. */
  ghost predicate InputsLaw(u: Utxo, content: Content, tx: Tx, nHeight: int) {
    var values := Values(Spent(content, tx));
    && (forall i :: 0 <= i < |tx.vin| ==> Deep(u, content, tx.vin[i].prevout.hash, nHeight))
    && (forall i :: 0 <= i < |values| ==> values[i] >= 0)
    && Sum(Values(tx.vout)) <= Sum(values) <= 206_500_000_000_000_000
  }

  ghost predicate Deep(u: Utxo, content: Content, id: TxId, nHeight: int) {
    Minting(content(id)) ==> id in u && nHeight - u[id].nHeight >= 30
  }

  lemma RecordedAt(u: Utxo, content: Content, o: OutPoint)
    requires Recorded(u, content) && Available(u, o)
    ensures u[o.hash].vout[o.n] == OutputAt(content, o) && u[o.hash].fCoinBase == Minting(content(o.hash))
  {
    assert RecordOf(u[o.hash], content(o.hash));
  }

  lemma {:induction false} ValueInIs(u: Utxo, content: Content, tx: Tx, k: nat)
    requires Recorded(u, content) && k <= |tx.vin|
    requires forall i :: 0 <= i < |tx.vin| ==> Available(u, tx.vin[i].prevout)
    ensures ValueIn(u, tx.vin[..k]) == Sum(Values(Spent(content, tx))[..k])
  {
    hide Recorded, Available;
    if k > 0 {
      ValueInIs(u, content, tx, k - 1);
      RecordedAt(u, content, tx.vin[k - 1].prevout);
      assert tx.vin[..k][..k - 1] == tx.vin[..k - 1];
      var values := Values(Spent(content, tx));
      assert values[..k][..k - 1] == values[..k - 1];
    }
  }

  lemma PrevOutsAre(u: Utxo, content: Content, tx: Tx)
    requires Recorded(u, content) && !tx.IsCoinBase() && HaveInputs(u, tx)
    ensures PrevOuts(u, tx) == Spent(content, tx)
  {
    hide Recorded, Available;
    forall i | 0 <= i < |tx.vin| ensures PrevOuts(u, tx)[i] == Spent(content, tx)[i] {
      assert Available(u, tx.vin[i].prevout);
      RecordedAt(u, content, tx.vin[i].prevout);
    }
  }

  lemma InputOkIff(u: Utxo, content: Content, tx: Tx, nHeight: int, i: nat)
    requires Recorded(u, content) && !tx.IsCoinBase() && HaveInputs(u, tx) && i < |tx.vin|
    ensures var values := Values(Spent(content, tx));
            InputOk(u, tx, nHeight, i) <==>
              Deep(u, content, tx.vin[i].prevout.hash, nHeight) && RangeAt(values, i)
  {
    hide Recorded;
    assert Available(u, tx.vin[i].prevout);
    RecordedAt(u, content, tx.vin[i].prevout);
    ValueInIs(u, content, tx, i + 1);
  }

  predicate RangeAt(values: seq<int>, i: nat)
    requires i < |values|
  {
    MoneyRange(values[i]) && MoneyRange(Sum(values[..i + 1]))
  }

  /** No part of the sum is out of range exactly if nothing is negative and the whole is not. */
  lemma {:induction false} RangesIff(values: seq<int>)
    ensures (forall i :: 0 <= i < |values| ==> RangeAt(values, i))
       <==> (forall i :: 0 <= i < |values| ==> values[i] >= 0) && Sum(values) <= 206_500_000_000_000_000
  {
    assert values[..|values|] == values;
    if forall i :: 0 <= i < |values| ==> values[i] >= 0 {
      forall k | 0 <= k <= |values| ensures 0 <= Sum(values[..k]) <= Sum(values) {
        SumGrows(values, k);
      }
      forall i | 0 <= i < |values| ensures values[i] <= Sum(values) {
        PartAtMost(values, i);
      }
    }
    if forall i :: 0 <= i < |values| ==> RangeAt(values, i) {
      forall i | 0 <= i < |values| ensures values[i] >= 0 {
        assert RangeAt(values, i);
      }
      if values != [] {
        assert RangeAt(values, |values| - 1);
      }
    }
  }

  /** The tests of the inputs that are there are just these. */
  lemma CheckInputsIff(u: Utxo, content: Content, tx: Tx, nHeight: int)
    requires Recorded(u, content) && !tx.IsCoinBase() && HaveInputs(u, tx) && TxLaw(tx)
    ensures CheckInputs(u, tx, nHeight) <==> InputsLaw(u, content, tx, nHeight)
  {
    hide Recorded, HaveInputs, InputOk, Deep, Sum, ValueIn, ValueOut, Spent, RangeAt;
    var values := Values(Spent(content, tx));
    SpentLength(content, tx);
    assert forall i :: 0 <= i < |tx.vin| ==> Available(u, tx.vin[i].prevout) by {
      InputsThere(u, tx);
    }
    ValueInIs(u, content, tx, |tx.vin|);
    assert tx.vin[..|tx.vin|] == tx.vin && values[..|tx.vin|] == values;
    ValueOutIs(tx.vout);
    SumGrows(Values(tx.vout), 0);
    RangesIff(values);
    forall i | 0 <= i < |tx.vin|
      ensures InputOk(u, tx, nHeight, i) <==> Deep(u, content, tx.vin[i].prevout.hash, nHeight) && RangeAt(values, i)
    {
      InputOkIff(u, content, tx, nHeight, i);
    }
    assert (forall i :: 0 <= i < |tx.vin| ==> InputOk(u, tx, nHeight, i)) <==>
             && (forall i :: 0 <= i < |tx.vin| ==> Deep(u, content, tx.vin[i].prevout.hash, nHeight))
             && (forall i :: 0 <= i < |values| ==> RangeAt(values, i));
  }

  lemma InputsThere(u: Utxo, tx: Tx)
    requires !tx.IsCoinBase() && HaveInputs(u, tx)
    ensures forall i :: 0 <= i < |tx.vin| ==> Available(u, tx.vin[i].prevout)
  {
  }

  lemma SpentLength(content: Content, tx: Tx)
    ensures |Spent(content, tx)| == |tx.vin|
  {
  }

  /** Its scripts pass under the given flags. */
  ghost predicate ScriptsPass(rules: Rules, content: Content, tx: Tx, flags: Flags) {
    forall i :: 0 <= i < |tx.vin| ==> rules.scriptOk(tx, i, OutputAt(content, tx.vin[i].prevout), flags)
  }

  lemma AllScriptsIff(rules: Rules, u: Utxo, content: Content, tx: Tx, flags: Flags)
    requires Recorded(u, content) && !tx.IsCoinBase() && HaveInputs(u, tx)
    ensures AllScriptsOk(rules, u, tx, flags) <==> ScriptsPass(rules, content, tx, flags)
  {
    hide Recorded, HaveInputs;
    PrevOutsAre(u, content, tx);
    forall i | 0 <= i < |tx.vin|
      ensures PrevOuts(u, tx)[i] == OutputAt(content, tx.vin[i].prevout)
    {
      assert PrevOuts(u, tx)[i] == Spent(content, tx)[i];
    }
  }

  // ---- a transaction in its block ----

  predicate MadeBy(tx: Tx, o: OutPoint) {
    tx.txid == o.hash && o.n < |tx.vout|
  }

  ghost predicate TakenBy(tx: Tx, o: OutPoint) {
    !Minting(tx) && exists i :: 0 <= i < |tx.vin| && tx.vin[i].prevout == o
  }

  /** The output was there before the block or is made further up in it, and is not spent further up. */
  ghost predicate Spendable(u: Utxo, txs: seq<Tx>, k: nat, o: OutPoint)
    requires k <= |txs|
  {
    && (Unspent(u, o) || exists j :: 0 <= j < k && MadeBy(txs[j], o))
    && forall j :: 0 <= j < k ==> !TakenBy(txs[j], o)
  }

  predicate Unspent(u: Utxo, o: OutPoint) {
    o.hash in u && o.n < |u[o.hash].vout| && u[o.hash].vout[o.n].nValue != -1
  }

  /** It mints, or all that it spends can be spent where it stands, and fits. */
  ghost predicate PlaceLaw(u: Utxo, content: Content, txs: seq<Tx>, k: nat, nHeight: int)
    requires k < |txs|
  {
    Minting(txs[k])
    || (&& (forall i :: 0 <= i < |txs[k].vin| ==> Spendable(u, txs, k, txs[k].vin[i].prevout))
        && InputsLaw(u, content, txs[k], nHeight))
  }

  /** Its signature operations; those in the scripts that are paid to count from April 2012 on. */
  function SigOps(rules: Rules, content: Content, tx: Tx, nTime: nat): nat {
    rules.legacySigOps(tx)
    + if !Minting(tx) && nTime >= 1_349_049_600 then rules.p2shSigOps(tx, Spent(content, tx)) else 0
  }

  /** What it leaves over. */
  function Fee(content: Content, tx: Tx): int {
    if Minting(tx) then 0 else Sum(Values(Spent(content, tx))) - Sum(Values(tx.vout))
  }

  function AllSigOps(rules: Rules, content: Content, txs: seq<Tx>, nTime: nat): seq<int> {
    seq(|txs|, k requires 0 <= k < |txs| => SigOps(rules, content, txs[k], nTime))
  }

  function Fees(content: Content, txs: seq<Tx>): seq<int> {
    seq(|txs|, k requires 0 <= k < |txs| => Fee(content, txs[k]))
  }

  ghost predicate AllPass(rules: Rules, content: Content, txs: seq<Tx>, flags: Flags) {
    forall k :: 0 <= k < |txs| && !Minting(txs[k]) ==> ScriptsPass(rules, content, txs[k], flags)
  }

  /** A record that was there keeps its height and version; a new one has the height of the block and the version of
      its transaction. */
  ghost predicate MarksKept(u: Utxo, after: Utxo, content: Content, nHeight: int) {
    forall id <- after :: MarkOk(u, after[id], content, id, nHeight)
  }

  ghost predicate MarkOk(u: Utxo, c: Coin, content: Content, id: TxId, nHeight: int) {
    if id in u then c.nHeight == u[id].nHeight && c.nVersion == u[id].nVersion
    else c.nHeight == nHeight && c.nVersion == content(id).nVersion
  }

  /** What the loop over the transactions has found out. */
  ghost predicate Told(rules: Rules, u: Utxo, content: Content, txs: seq<Tx>, nHeight: nat, nTime: nat) {
    var r := ConnectTxs(rules, u, txs, nHeight, nTime);
    && (r.Some? <==> (forall k :: 0 <= k < |txs| ==> PlaceLaw(u, content, txs, k, nHeight))
                     && Sum(AllSigOps(rules, content, txs, nTime)) <= 20_000)
    && (r.Some? ==>
          && r.value.nFees == Sum(Fees(content, txs))
          && r.value.nSigOps == Sum(AllSigOps(rules, content, txs, nTime))
          && MarksKept(u, r.value.u, content, nHeight)
          && (r.value.fScripts <==>
                (nHeight >= rules.scriptsFrom ==>
                   AllPass(rules, content, txs, Flags(nTime >= 1_349_049_600, false)))))
  }

  lemma AvailableAt(rules: Rules, u: Utxo, txs: seq<Tx>, nHeight: nat, nTime: nat, o: OutPoint)
    requires Sound(u) && nHeight >= 1 && txs != [] && NoOverwrite(u, txs) && ShapeOk(txs)
    requires ConnectTxs(rules, u, txs[..|txs| - 1], nHeight, nTime).Some?
    ensures Available(ConnectTxs(rules, u, txs[..|txs| - 1], nHeight, nTime).value.u, o)
       <==> Spendable(u, txs, |txs| - 1, o)
  {
    hide ConnectTxs, Sound, CheckTransaction;
    var k := |txs| - 1;
    var init := txs[..k];
    assert forall i :: 0 <= i < k ==> init[i] == txs[i];
    ConnectTxsAvailable(rules, u, init, nHeight, nTime, o);
    if Creates(init, o) {
      var j :| 0 <= j < k && IsOutput(o, init[j]);
      assert MadeBy(txs[j], o);
    }
    if j :| 0 <= j < k && MadeBy(txs[j], o) {
      assert IsOutput(o, init[j]);
    }
    if SpendsAny(init, o) {
      var j :| 0 <= j < k && Takes(init[j], o);
      assert TakenBy(txs[j], o);
    }
    if j :| 0 <= j < k && TakenBy(txs[j], o) {
      assert Takes(init[j], o);
    }
  }

  lemma PlaceStays(u: Utxo, content: Content, txs: seq<Tx>, k: nat, j: nat, nHeight: int)
    requires j < k <= |txs|
    ensures PlaceLaw(u, content, txs[..k], j, nHeight) <==> PlaceLaw(u, content, txs, j, nHeight)
  {
    hide InputsLaw, TakenBy, MadeBy, Unspent;
    forall o ensures Spendable(u, txs[..k], j, o) <==> Spendable(u, txs, j, o) {
      assert forall i :: 0 <= i < j ==> txs[..k][i] == txs[i];
    }
  }

  /** Depth below the tip of the block. */
  lemma DeepAfter(u: Utxo, after: Utxo, content: Content, tx: Tx, txs: seq<Tx>, nHeight: int)
    requires MarksKept(u, after, content, nHeight) && !tx.IsCoinBase() && HaveInputs(after, tx)
    ensures InputsLaw(after, content, tx, nHeight) <==> InputsLaw(u, content, tx, nHeight)
  {
    forall i | 0 <= i < |tx.vin|
      ensures Deep(after, content, tx.vin[i].prevout.hash, nHeight) <==>
              Deep(u, content, tx.vin[i].prevout.hash, nHeight)
    {
      assert Available(after, tx.vin[i].prevout);
      var id := tx.vin[i].prevout.hash;
      assert MarkOk(u, after[id], content, id, nHeight);
    }
  }

  /** The place of the last transaction of `txs` is as the law has it exactly if the loop finds its inputs there and in
      order. */
  lemma PlaceIff(rules: Rules, u: Utxo, content: Content, txs: seq<Tx>, nHeight: nat, nTime: nat)
    requires Sound(u) && Recorded(u, content) && nHeight >= 1 && txs != [] && NoOverwrite(u, txs) && ShapeOk(txs)
    requires AllOf(txs, content) && ConnectTxs(rules, u, txs[..|txs| - 1], nHeight, nTime).Some?
    requires MarksKept(u, ConnectTxs(rules, u, txs[..|txs| - 1], nHeight, nTime).value.u, content, nHeight)
    ensures var k, v := |txs| - 1, ConnectTxs(rules, u, txs[..|txs| - 1], nHeight, nTime).value.u;
            && Sound(v) && Recorded(v, content)
            && (PlaceLaw(u, content, txs, k, nHeight) <==>
                  txs[k].IsCoinBase() || (HaveInputs(v, txs[k]) && CheckInputs(v, txs[k], nHeight)))
  {
    hide ConnectTxs, Sound, Recorded, Spendable, InputsLaw, Available, CheckInputs, TxLaw, MarksKept;
    var k := |txs| - 1;
    var init, tx := txs[..k], txs[k];
    assert forall i :: 0 <= i < k ==> init[i] == txs[i];
    var v := ConnectTxs(rules, u, init, nHeight, nTime).value.u;
    ConnectTxsFacts(rules, u, init, nHeight, nTime);
    ConnectTxsRecorded(rules, u, init, nHeight, nTime, content);
    CheckTransactionIff(tx);
    if !tx.IsCoinBase() {
      forall i | 0 <= i < |tx.vin|
        ensures Available(v, tx.vin[i].prevout) <==> Spendable(u, txs, k, tx.vin[i].prevout)
      {
        AvailableAt(rules, u, txs, nHeight, nTime, tx.vin[i].prevout);
      }
      if HaveInputs(v, tx) {
        CheckInputsIff(v, content, tx, nHeight);
        DeepAfter(u, v, content, tx, txs, nHeight);
      }
    }
  }

  lemma ConnectTxIff(rules: Rules, p: Progress, content: Content, tx: Tx, nHeight: nat, nTime: nat)
    requires Sound(p.u) && Recorded(p.u, content) && nHeight >= 1 && CheckTransaction(tx)
    requires tx.txid !in p.u && content(tx.txid) == tx
    ensures var r := ConnectTx(rules, p, tx, nHeight, nTime);
            && (r.Some? <==> (tx.IsCoinBase() || (HaveInputs(p.u, tx) && CheckInputs(p.u, tx, nHeight)))
                             && p.nSigOps + SigOps(rules, content, tx, nTime) <= 20_000)
            && (r.Some? ==>
                  && r.value.nFees == p.nFees + Fee(content, tx)
                  && r.value.nSigOps == p.nSigOps + SigOps(rules, content, tx, nTime)
                  && MarksKept(p.u, r.value.u, content, nHeight)
                  && (r.value.fScripts <==> p.fScripts && (!Minting(tx) && nHeight >= rules.scriptsFrom ==>
                        ScriptsPass(rules, content, tx, Flags(nTime >= 1_349_049_600, false)))))
  {
    hide Recorded, Sound, CheckInputs, PrevOuts, SpendInputs, Spent, ScriptsPass, AllScriptsOk;
    if !tx.IsCoinBase() && HaveInputs(p.u, tx) {
      CheckedInputs(tx);
      PrevOutsAre(p.u, content, tx);
      SpendNeverFails(p.u, tx.vin);
      ValueInIs(p.u, content, tx, |tx.vin|);
      assert tx.vin[..|tx.vin|] == tx.vin;
      var values := Values(Spent(content, tx));
      SpentLength(content, tx);
      assert values[..|tx.vin|] == values;
      ValueOutIs(tx.vout);
      AllScriptsIff(rules, p.u, content, tx, BlockFlags(nTime));
      SpendKeepsMarks(p.u, tx.vin);
    }
  }

  lemma CheckedInputs(tx: Tx)
    requires CheckTransaction(tx)
    ensures DistinctInputs(tx.vin)
  {
  }

  lemma {:induction false} SpendKeepsMarks(u: Utxo, vin: seq<TxIn>)
    requires SpendInputs(u, vin).Some?
    ensures forall id <- SpendInputs(u, vin).value.0 ::
              && id in u && SpendInputs(u, vin).value.0[id].nHeight == u[id].nHeight
              && SpendInputs(u, vin).value.0[id].nVersion == u[id].nVersion
  {
    hide Trim;
    if vin != [] {
      SpendKeepsMarks(u, vin[..|vin| - 1]);
    }
  }

  lemma {:induction false} ConnectTxsIff(rules: Rules, u: Utxo, content: Content, txs: seq<Tx>, nHeight: nat,
                                         nTime: nat)
    requires Sound(u) && Recorded(u, content) && nHeight >= 1 && NoOverwrite(u, txs)
    requires AllOf(txs, content) && (txs != [] ==> ShapeOk(txs))
    ensures Told(rules, u, content, txs, nHeight, nTime)
  {
    hide ConnectTx, Sound, Recorded, CheckTransaction, Told;
    if txs != [] {
      var k := |txs| - 1;
      assert forall i :: 0 <= i < k ==> txs[..k][i] == txs[i];
      ConnectTxsIff(rules, u, content, txs[..k], nHeight, nTime);
      ToldFurther(rules, u, content, txs, nHeight, nTime);
    } else {
      NothingTold(rules, u, content, nHeight, nTime);
    }
  }

  lemma NothingTold(rules: Rules, u: Utxo, content: Content, nHeight: nat, nTime: nat)
    ensures Told(rules, u, content, [], nHeight, nTime)
  {
  }

  lemma ToldFurther(rules: Rules, u: Utxo, content: Content, txs: seq<Tx>, nHeight: nat, nTime: nat)
    requires Sound(u) && Recorded(u, content) && nHeight >= 1 && NoOverwrite(u, txs)
    requires AllOf(txs, content) && txs != [] && ShapeOk(txs)
    requires Told(rules, u, content, txs[..|txs| - 1], nHeight, nTime)
    ensures Told(rules, u, content, txs, nHeight, nTime)
  {
    hide ConnectTx, Sound, Recorded, CheckTransaction, PlaceLaw, SigOps, Fee, ScriptsPass, MarksKept, CheckInputs,
         HaveInputs, Sum, AllSigOps, Fees, AllPass, ShapeOk, NoOverwrite, AllOf, RemoveOutputs, RestoreInputs,
         DisconnectTxs;
    var k := |txs| - 1;
    var init := txs[..k];
    PlacesFurther(u, content, txs, nHeight);
    SumsFurther(rules, content, txs, nTime);
    LastIsChecked(u, content, txs);
    if ConnectTxs(rules, u, init, nHeight, nTime).Some? {
      var p := ConnectTxs(rules, u, init, nHeight, nTime).value;
      PlaceIff(rules, u, content, txs, nHeight, nTime);
      ConnectTxsFacts(rules, u, init, nHeight, nTime);
      ConnectTxIff(rules, p, content, txs[k], nHeight, nTime);
      AllPassFurther(rules, content, txs, Flags(nTime >= 1_349_049_600, false));
      if ConnectTxs(rules, u, txs, nHeight, nTime).Some? {
        ConnectTxFacts(rules, p, txs[k], nHeight, nTime);
        MarksFurther(u, p.u, ConnectTxs(rules, u, txs, nHeight, nTime).value.u, content, txs[k].txid, nHeight);
      }
    }
  }

  lemma SumsFurther(rules: Rules, content: Content, txs: seq<Tx>, nTime: nat)
    requires txs != []
    ensures var k := |txs| - 1;
            && Sum(AllSigOps(rules, content, txs, nTime))
               == Sum(AllSigOps(rules, content, txs[..k], nTime)) + SigOps(rules, content, txs[k], nTime)
            && Sum(Fees(content, txs)) == Sum(Fees(content, txs[..k])) + Fee(content, txs[k])
  {
    hide SigOps, Fee;
    var k := |txs| - 1;
    assert AllSigOps(rules, content, txs, nTime)[..k] == AllSigOps(rules, content, txs[..k], nTime);
    assert Fees(content, txs)[..k] == Fees(content, txs[..k]);
  }

  lemma LastIsChecked(u: Utxo, content: Content, txs: seq<Tx>)
    requires txs != [] && ShapeOk(txs) && NoOverwrite(u, txs) && AllOf(txs, content)
    ensures var k := |txs| - 1;
            && CheckTransaction(txs[k]) && content(txs[k].txid) == txs[k]
            && txs[k].txid !in u && txs[k].txid !in Ids(txs[..k])
            && NoOverwrite(u, txs[..k]) && (k > 0 ==> ShapeOk(txs[..k]))
  {
    hide CheckTransaction;
    var k := |txs| - 1;
    assert forall i :: 0 <= i < k ==> txs[..k][i] == txs[i];
  }

  lemma PlacesFurther(u: Utxo, content: Content, txs: seq<Tx>, nHeight: int)
    requires txs != []
    ensures var k := |txs| - 1;
            (forall j :: 0 <= j < |txs| ==> PlaceLaw(u, content, txs, j, nHeight)) <==>
              && (forall j :: 0 <= j < k ==> PlaceLaw(u, content, txs[..k], j, nHeight))
              && PlaceLaw(u, content, txs, k, nHeight)
  {
    hide PlaceLaw;
    var k := |txs| - 1;
    forall j | 0 <= j < k
      ensures PlaceLaw(u, content, txs[..k], j, nHeight) <==> PlaceLaw(u, content, txs, j, nHeight)
    {
      PlaceStays(u, content, txs, k, j, nHeight);
    }
  }

  lemma AllPassFurther(rules: Rules, content: Content, txs: seq<Tx>, flags: Flags)
    requires txs != []
    ensures var k := |txs| - 1;
            AllPass(rules, content, txs, flags) <==>
              AllPass(rules, content, txs[..k], flags)
              && (!Minting(txs[k]) ==> ScriptsPass(rules, content, txs[k], flags))
  {
    hide ScriptsPass;
    var k := |txs| - 1;
    assert forall i :: 0 <= i < k ==> txs[..k][i] == txs[i];
  }

  lemma MarksFurther(u: Utxo, v: Utxo, w: Utxo, content: Content, made: TxId, nHeight: int)
    requires MarksKept(u, v, content, nHeight) && MarksKept(v, w, content, nHeight)
    requires w.Keys <= v.Keys + {made} && made !in u
    ensures MarksKept(u, w, content, nHeight)
  {
    forall id | id in w ensures MarkOk(u, w[id], content, id, nHeight) {
      assert MarkOk(v, w[id], content, id, nHeight);
      assert id in v ==> MarkOk(u, v[id], content, id, nHeight);
    }
  }

  // ---- a block ----

  /** What a block at this height may create. */
  function Paid(nHeight: nat): int {
    if nHeight <= 1 then 2_065_000_000_000_000
    else if nHeight <= 99 then 1_300_000_000
    else
      var parts := Powers.Pow2(nHeight / 1_051_200);
      41_300_000_000 / parts
  }

  /** All that is asked of a block on top of `u`, but for what its first transaction pays. */
  ghost predicate LawfulButPay(rules: Rules, u: Utxo, content: Content, block: Block, nHeight: nat) {
    && rules.headerOk(block) && |block.vtx| >= 1
    && (forall k :: 0 <= k < |block.vtx| ==> (Minting(block.vtx[k]) <==> k == 0))
    && (forall k :: 0 <= k < |block.vtx| ==> TxLaw(block.vtx[k]) && block.vtx[k].txid !in u)
    && (forall j, k :: 0 <= j < k < |block.vtx| ==> block.vtx[j].txid != block.vtx[k].txid)
    && (forall k :: 0 <= k < |block.vtx| ==> PlaceLaw(u, content, block.vtx, k, nHeight))
    && Sum(AllSigOps(rules, content, block.vtx, block.nTime)) <= 20_000
    && (nHeight >= rules.scriptsFrom ==>
          AllPass(rules, content, block.vtx, Flags(block.nTime >= 1_349_049_600, false)))
  }

  /** The first transaction pays at most what may be created, and what the others leave over. */
  ghost predicate Lawful(rules: Rules, u: Utxo, content: Content, block: Block, nHeight: nat) {
    && LawfulButPay(rules, u, content, block, nHeight)
    && Sum(Values(block.vtx[0].vout)) <= Paid(nHeight) + Sum(Fees(content, block.vtx))
  }

  lemma {:induction false} ShrIs(v: nat, n: nat)
    ensures Powers.Shr(v, n) == v / Powers.Pow2(n)
  {
    if n > 0 {
      ShrIs(v, n - 1);
      DivideTwice(v, Powers.Pow2(n - 1));
    }
  }

  lemma DivideTwice(v: nat, d: nat)
    requires d >= 1
    ensures v / d / 2 == v / (2 * d)
  {
    var q, r := v / d, v % d;
    assert v == d * q + r;
    var h, b := q / 2, q % 2;
    assert q == 2 * h + b;
    var rest := d * b + r;
    assert d * b <= d;
    assert v == (2 * d) * h + rest by {
      assert d * (2 * h + b) == d * (2 * h) + d * b;
      assert d * (2 * h) == (2 * d) * h;
    }
    Quotient(v, 2 * d, h, rest);
  }

  lemma Quotient(v: nat, d: nat, q: nat, r: nat)
    requires r < d && v == d * q + r
    ensures v / d == q
  {
    var p, s := v / d, v % d;
    assert d * (p - q) == r - s by {
      assert v == d * p + s;
      assert d * (p - q) == d * p - d * q;
    }
    Within(d, p - q);
  }

  lemma Within(d: int, k: int)
    requires d >= 1
    ensures k >= 1 ==> d * k >= d
    ensures k <= -1 ==> d * k <= -d
  {
    assert k >= 1 ==> d * (k - 1) >= 0;
    assert k <= -1 ==> d * (k + 1) <= 0;
  }

  lemma SubsidyIs(nHeight: nat)
    ensures Subsidy(nHeight) == Paid(nHeight)
  {
    if nHeight >= 100 {
      ShrIs(413 * COIN, nHeight / 1_051_200);
    } else {
      assert nHeight / 1_051_200 == 0;
    }
  }

  /** A block connects exactly if it is lawful. */
  lemma ConnectsIff(rules: Rules, u: Utxo, content: Content, block: Block, nHeight: nat)
    requires Sound(u) && Recorded(u, content) && nHeight >= 1 && AllOf(block.vtx, content)
    ensures Connect(rules, u, block, nHeight).Some? <==> Lawful(rules, u, content, block, nHeight)
  {
    hide ConnectTxs, Sound, Recorded, AllOf, PlaceLaw, AllPass, CheckTransaction, TxLaw, Subsidy, Paid, Sum, Fees,
         AllSigOps, MarksKept;
    forall k | 0 <= k < |block.vtx| ensures CheckTransaction(block.vtx[k]) <==> TxLaw(block.vtx[k]) {
      CheckTransactionIff(block.vtx[k]);
    }
    if CheckBlock(rules, block) && NoOverwrite(u, block.vtx) {
      ConnectTxsIff(rules, u, content, block.vtx, nHeight, block.nTime);
      ValueOutIs(block.vtx[0].vout);
      SubsidyIs(nHeight);
    }
  }
}

/** What follows from the law of blocks for what is paid, for whole branches, and for the pool. */
module ChainLaw {
  import opened Options
  import opened Coins
  import opened Ledger
  import opened BlockTree
  import opened Availability
  import opened Maturity
  import opened Supply
  import opened BlockLaw
  import Powers

  // ---- what a block pays ----

  lemma {:induction false} ConnectAddsUp(rules: Rules, u: Utxo, content: Content, block: Block, nHeight: nat)
    requires Sound(u) && Recorded(u, content) && nHeight >= 1 && AllOf(block.vtx, content) && NonNegative(u)
    requires Connect(rules, u, block, nHeight).Some?
    ensures Total(Connect(rules, u, block, nHeight).value.0)
         == Total(u) + Sum(Values(block.vtx[0].vout)) - Sum(Fees(content, block.vtx))
  {
    hide ConnectTxs, Sound, Recorded, AllOf, NonNegative, Total, PlaceLaw, AllPass, CheckTransaction, MarksKept;
    ConnectTxsIff(rules, u, content, block.vtx, nHeight, block.nTime);
    ConnectTxsValue(rules, u, block.vtx, nHeight, block.nTime);
    ValueOutIs(block.vtx[0].vout);
  }

  /** A block that is lawful otherwise connects exactly if its first transaction pays at most the subsidy of its height
      and what the others leave over; if it pays all of that, unspent value grows by the subsidy. */
  lemma {:induction false} PayLimit(rules: Rules, u: Utxo, content: Content, block: Block, nHeight: nat, nSubsidy: int)
    requires Sound(u) && Recorded(u, content) && nHeight >= 1 && AllOf(block.vtx, content) && NonNegative(u)
    requires LawfulButPay(rules, u, content, block, nHeight)
    requires nHeight == 1 ==> nSubsidy == 20_650_000 * 100_000_000
    requires 2 <= nHeight <= 99 ==> nSubsidy == 13 * 100_000_000
    requires nHeight >= 100 ==> nSubsidy == 413 * 100_000_000 / Powers.Pow2(nHeight / 1_051_200)
    ensures var paid := Sum(Values(block.vtx[0].vout));
            var limit := nSubsidy + Sum(Fees(content, block.vtx));
            var r := Connect(rules, u, block, nHeight);
            && (r.Some? <==> paid <= limit)
            && (r.Some? ==> (Total(r.value.0) == Total(u) + nSubsidy <==> paid == limit))
            && (paid == limit ==> r.Some? && Total(r.value.0) == Total(u) + nSubsidy)
  {
    hide Connect, Sound, Recorded, AllOf, NonNegative, Total, LawfulButPay, Sum, Fees;
    assert nSubsidy == Paid(nHeight);
    ConnectsIff(rules, u, content, block, nHeight);
    if Connect(rules, u, block, nHeight).Some? {
      ConnectAddsUp(rules, u, content, block, nHeight);
    }
  }

  // ---- scripts ----

  /** The same rules, under which every script passes. */
  function Free(rules: Rules): Rules {
    rules.(scriptOk := (tx, i, out, flags) => true)
  }

  lemma {:induction false} ScriptsApart(rules: Rules, u: Utxo, txs: seq<Tx>, nHeight: int, nTime: nat)
    ensures var r, f := ConnectTxs(rules, u, txs, nHeight, nTime), ConnectTxs(Free(rules), u, txs, nHeight, nTime);
            && (r.Some? <==> f.Some?)
            && (r.Some? ==> r.value.(fScripts := true) == f.value)
  {
    hide CheckInputs, PrevOuts, HaveInputs, SpendInputs, ValueIn, ValueOut;
    if txs != [] {
      ScriptsApart(rules, u, txs[..|txs| - 1], nHeight, nTime);
    }
  }

  /** Below the height from which scripts are judged they decide nothing; from there on a block connects exactly if it
      would with all scripts passing, and they do, with the same result. */
  lemma ScriptsDecide(rules: Rules, u: Utxo, content: Content, block: Block, nHeight: nat)
    requires Sound(u) && Recorded(u, content) && nHeight >= 1 && AllOf(block.vtx, content)
    ensures Connect(rules, u, block, nHeight)
         == if nHeight < rules.scriptsFrom
               || AllPass(rules, content, block.vtx, Flags(block.nTime >= 1_349_049_600, false))
            then Connect(Free(rules), u, block, nHeight) else None
  {
    hide ConnectTxs, Sound, Recorded, AllOf, AllPass, PlaceLaw, MarksKept, CheckTransaction, Sum, Fees, AllSigOps;
    ScriptsApart(rules, u, block.vtx, nHeight, block.nTime);
    if CheckBlock(rules, block) && NoOverwrite(u, block.vtx) {
      ConnectTxsIff(rules, u, content, block.vtx, nHeight, block.nTime);
      FreePasses(rules, content, block.vtx, nHeight, block.nTime);
      ConnectTxsIff(Free(rules), u, content, block.vtx, nHeight, block.nTime);
    }
  }

  lemma FreePasses(rules: Rules, content: Content, txs: seq<Tx>, nHeight: nat, nTime: nat)
    ensures AllPass(Free(rules), content, txs, Flags(nTime >= 1_349_049_600, false))
  {
  }

  // ---- whole branches ----

  /** The scripts of every block of the branch that are judged at all pass. */
  ghost predicate BranchPasses(rules: Rules, t: Tree, genesis: BlockHash, blocks: map<BlockHash, Block>,
                               content: Content, p: Ptr)
    requires TreeOk(t, genesis) && Known(t, p)
  {
    forall b :: b in t && b in blocks && IsAncestor(t, genesis, Some(b), p) ==>
                  BlockPasses(rules, t, genesis, blocks, content, b)
  }

  ghost predicate BlockPasses(rules: Rules, t: Tree, genesis: BlockHash, blocks: map<BlockHash, Block>,
                              content: Content, b: BlockHash)
    requires b in t && b in blocks
  {
    b != genesis && t[b].nHeight >= rules.scriptsFrom ==>
      AllPass(rules, content, blocks[b].vtx, Flags(blocks[b].nTime >= 1_349_049_600, false))
  }

  lemma PassesFurther(rules: Rules, t: Tree, genesis: BlockHash, blocks: map<BlockHash, Block>, content: Content,
                      b: BlockHash)
    requires TreeOk(t, genesis) && b in t && t.Keys <= blocks.Keys
    ensures BranchPasses(rules, t, genesis, blocks, content, Some(b)) <==>
              && BranchPasses(rules, t, genesis, blocks, content, Parent(t, genesis, b))
              && BlockPasses(rules, t, genesis, blocks, content, b)
  {
    hide BlockPasses;
    AncestorStep(t, genesis, b);
  }

  /** A branch replays exactly if it would with all scripts passing, and those that are judged pass; with the same
      result. */
  lemma {:induction false} BranchJudged(rules: Rules, t: Tree, genesis: BlockHash, blocks: map<BlockHash, Block>,
                                        content: Content, p: Ptr)
    requires TreeOk(t, genesis) && Known(t, p) && t.Keys <= blocks.Keys
    requires forall b <- blocks :: AllOf(blocks[b].vtx, content)
    ensures Replay(rules, t, genesis, blocks, p)
         == if BranchPasses(rules, t, genesis, blocks, content, p) then Replay(Free(rules), t, genesis, blocks, p)
            else None
    decreases Height(t, p) + 1
  {
    hide Connect, AllOf, BranchPasses, AllPass;
    if p.Some? && p.value != genesis {
      var prev := Parent(t, genesis, p.value);
      BranchJudged(rules, t, genesis, blocks, content, prev);
      PassesFurther(rules, t, genesis, blocks, content, p.value);
      var before := Replay(Free(rules), t, genesis, blocks, prev);
      if before.Some? {
        ReplaySound(Free(rules), t, genesis, blocks, prev);
        ReplayRecorded(Free(rules), t, genesis, blocks, prev, content);
        ScriptsDecide(rules, before.value, content, blocks[p.value], t[p.value].nHeight);
      }
    } else {
      NothingJudged(rules, t, genesis, blocks, content, p);
    }
  }

  lemma NothingJudged(rules: Rules, t: Tree, genesis: BlockHash, blocks: map<BlockHash, Block>, content: Content,
                      p: Ptr)
    requires TreeOk(t, genesis) && Known(t, p) && (p.None? || p.value == genesis)
    ensures BranchPasses(rules, t, genesis, blocks, content, p)
  {
    if p.Some? {
      assert Parent(t, genesis, genesis) == None;
    }
  }

  /** Every script of a block of a branch that replays has passed, from the height on from which scripts are judged. */
  lemma {:induction false} ScriptsHavePassed(rules: Rules, t: Tree, genesis: BlockHash, blocks: map<BlockHash, Block>,
                                             content: Content, p: Ptr, b: BlockHash, k: nat, i: nat)
    requires TreeOk(t, genesis) && Known(t, p) && t.Keys <= blocks.Keys
    requires forall b <- blocks :: AllOf(blocks[b].vtx, content)
    requires Replay(rules, t, genesis, blocks, p).Some?
    requires b in t && b != genesis && IsAncestor(t, genesis, Some(b), p) && t[b].nHeight >= rules.scriptsFrom
    requires k < |blocks[b].vtx| && k > 0 && i < |blocks[b].vtx[k].vin|
    ensures var tx := blocks[b].vtx[k];
            var o := tx.vin[i].prevout;
            && o.n < |content(o.hash).vout|
            && rules.scriptOk(tx, i, content(o.hash).vout[o.n], Flags(blocks[b].nTime >= 1_349_049_600, false))
  {
    hide AllOf, Connect, Recorded, Sound, LawfulButPay;
    BranchJudged(rules, t, genesis, blocks, content, p);
    assert BlockPasses(rules, t, genesis, blocks, content, b);
    LawfulOnBranch(rules, t, genesis, blocks, content, p, b);
    InputIsThere(rules, Replay(rules, t, genesis, blocks, Parent(t, genesis, b)).value, content, blocks[b],
                 t[b].nHeight, k, i);
  }

  /** Every block of a branch that replays is lawful on top of its predecessors. */
  lemma {:induction false} LawfulOnBranch(rules: Rules, t: Tree, genesis: BlockHash, blocks: map<BlockHash, Block>,
                                          content: Content, p: Ptr, b: BlockHash)
    requires TreeOk(t, genesis) && Known(t, p) && t.Keys <= blocks.Keys
    requires forall b <- blocks :: AllOf(blocks[b].vtx, content)
    requires Replay(rules, t, genesis, blocks, p).Some?
    requires b in t && b != genesis && IsAncestor(t, genesis, Some(b), p)
    ensures var before := Replay(rules, t, genesis, blocks, Parent(t, genesis, b));
            && before.Some? && Sound(before.value) && Recorded(before.value, content)
            && Lawful(rules, before.value, content, blocks[b], t[b].nHeight)
  {
    hide Connect, AllOf, Sound, Recorded, Lawful;
    ReplayPrefix(rules, t, genesis, blocks, Some(b), p);
    var prev := Parent(t, genesis, b);
    ReplaySound(rules, t, genesis, blocks, prev);
    ReplayRecorded(rules, t, genesis, blocks, prev, content);
    ConnectsIff(rules, Replay(rules, t, genesis, blocks, prev).value, content, blocks[b], t[b].nHeight);
  }

  /** What a transaction of a lawful block spends is an output of the transaction it names. */
  lemma InputIsThere(rules: Rules, u: Utxo, content: Content, block: Block, nHeight: nat, k: nat, i: nat)
    requires Recorded(u, content) && AllOf(block.vtx, content) && LawfulButPay(rules, u, content, block, nHeight)
    requires 0 < k < |block.vtx| && i < |block.vtx[k].vin|
    ensures var o := block.vtx[k].vin[i].prevout; o.n < |content(o.hash).vout|
    ensures !Minting(block.vtx[k]) && PlaceLaw(u, content, block.vtx, k, nHeight)
  {
    var o := block.vtx[k].vin[i].prevout;
    assert PlaceLaw(u, content, block.vtx, k, nHeight) && !Minting(block.vtx[k]);
    assert Spendable(u, block.vtx, k, o);
    if Unspent(u, o) {
      assert RecordOf(u[o.hash], content(o.hash));
    } else {
      var j :| 0 <= j < k && MadeBy(block.vtx[j], o);
    }
  }

  // ---- what a block leaves ----

  /** The set after a block, record by record: an output is there exactly if it was there or is made, and is not spent;
      it is the output of its transaction, and height and version tell where its record is from. */
  lemma OutcomeIs(rules: Rules, u: Utxo, content: Content, block: Block, nHeight: nat, o: OutPoint)
    requires Sound(u) && Recorded(u, content) && nHeight >= 1 && AllOf(block.vtx, content)
    requires Connect(rules, u, block, nHeight).Some?
    ensures var after := Connect(rules, u, block, nHeight).value.0;
            && (Unspent(after, o) <==> Spendable(u, block.vtx, |block.vtx|, o))
            && (Unspent(after, o) ==>
                  var c := after[o.hash];
                  && o.n < |content(o.hash).vout| && c.vout[o.n] == content(o.hash).vout[o.n]
                  && c.fCoinBase == Minting(content(o.hash))
                  && (if o.hash in u then c.nHeight == u[o.hash].nHeight && c.nVersion == u[o.hash].nVersion
                      else c.nHeight == nHeight && c.nVersion == content(o.hash).nVersion))
  {
    hide ConnectTxs, AllOf, Sound, Recorded, AllPass, PlaceLaw, CheckTransaction, TakenBy, Takes, ShapeOk;
    ConnectTxsRecorded(rules, u, block.vtx, nHeight, block.nTime, content);
    ConnectHeights(rules, u, content, block, nHeight);
    ConnectAvailable(rules, u, block, nHeight, o);
    SpendableIs(u, block.vtx, o);
    var after := Connect(rules, u, block, nHeight).value.0;
    if Unspent(after, o) {
      assert RecordOf(after[o.hash], content(o.hash)) by {
        RecordedEach(after, content, o.hash);
      }
      assert MarkOk(u, after[o.hash], content, o.hash, nHeight);
    }
  }

  lemma RecordedEach(u: Utxo, content: Content, id: TxId)
    requires Recorded(u, content) && id in u
    ensures RecordOf(u[id], content(id))
  {
  }

  lemma SpendableIs(u: Utxo, txs: seq<Tx>, o: OutPoint)
    ensures Spendable(u, txs, |txs|, o) <==> (Available(u, o) || Creates(txs, o)) && !SpendsAny(txs, o)
  {
    if Creates(txs, o) {
      var j :| 0 <= j < |txs| && IsOutput(o, txs[j]);
      assert MadeBy(txs[j], o);
    }
    if j :| 0 <= j < |txs| && MadeBy(txs[j], o) {
      assert IsOutput(o, txs[j]);
    }
    if SpendsAny(txs, o) {
      var j :| 0 <= j < |txs| && Takes(txs[j], o);
      assert TakenBy(txs[j], o);
    }
    if j :| 0 <= j < |txs| && TakenBy(txs[j], o) {
      assert Takes(txs[j], o);
    }
  }

  // ---- how deep coinbases are when they are spent ----

  ghost predicate Holds(block: Block, id: TxId) {
    exists k :: 0 <= k < |block.vtx| && block.vtx[k].txid == id
  }

  /** The record has the height of a block of the branch that holds its transaction. */
  ghost predicate HeightTrue(t: Tree, genesis: BlockHash, blocks: map<BlockHash, Block>, p: Ptr, id: TxId, nHeight: int)
    requires TreeOk(t, genesis) && Known(t, p)
  {
    exists c :: c in t && c in blocks && IsAncestor(t, genesis, Some(c), p) && t[c].nHeight == nHeight
                && Holds(blocks[c], id)
  }

  lemma {:induction false} HeightsTrue(rules: Rules, t: Tree, genesis: BlockHash, blocks: map<BlockHash, Block>,
                                       content: Content, p: Ptr)
    requires TreeOk(t, genesis) && Known(t, p) && t.Keys <= blocks.Keys
    requires forall b <- blocks :: AllOf(blocks[b].vtx, content)
    requires Replay(rules, t, genesis, blocks, p).Some?
    ensures var u := Replay(rules, t, genesis, blocks, p).value;
            forall id <- u :: HeightTrue(t, genesis, blocks, p, id, u[id].nHeight)
    decreases Height(t, p) + 1
  {
    hide ConnectTxs, AllOf, Sound, Recorded, ShapeOk, Holds, IsAncestor, AllPass, PlaceLaw;
    if p.Some? && p.value != genesis {
      var b := p.value;
      var prev := Parent(t, genesis, b);
      HeightsTrue(rules, t, genesis, blocks, content, prev);
      ReplaySound(rules, t, genesis, blocks, prev);
      ReplayRecorded(rules, t, genesis, blocks, prev, content);
      var u := Replay(rules, t, genesis, blocks, prev).value;
      ConnectHeights(rules, u, content, blocks[b], t[b].nHeight);
      AncestorStep(t, genesis, b);
      var after := Replay(rules, t, genesis, blocks, p).value;
      forall id | id in after ensures HeightTrue(t, genesis, blocks, p, id, after[id].nHeight) {
        if id in u {
          assert HeightTrue(t, genesis, blocks, prev, id, u[id].nHeight);
        }
      }
    }
  }

  lemma ConnectHeights(rules: Rules, u: Utxo, content: Content, block: Block, nHeight: nat)
    requires Sound(u) && Recorded(u, content) && nHeight >= 1 && AllOf(block.vtx, content)
    requires Connect(rules, u, block, nHeight).Some?
    ensures var after := Connect(rules, u, block, nHeight).value.0;
            forall id <- after :: MarkOk(u, after[id], content, id, nHeight) && (id !in u ==> Holds(block, id))
  {
    hide ConnectTxs, AllOf, Sound, Recorded, AllPass, PlaceLaw, CheckTransaction;
    ConnectTxsIff(rules, u, content, block.vtx, nHeight, block.nTime);
    ConnectTxsFacts(rules, u, block.vtx, nHeight, block.nTime);
  }

  /** Whatever spends from a coinbase, on a branch that replays, stands at least thirty blocks above it. */
  lemma CoinbaseIsDeep(rules: Rules, t: Tree, genesis: BlockHash, blocks: map<BlockHash, Block>, content: Content,
                       p: Ptr, b: BlockHash, k: nat, i: nat) returns (c: BlockHash)
    requires TreeOk(t, genesis) && Known(t, p) && t.Keys <= blocks.Keys
    requires forall b <- blocks :: AllOf(blocks[b].vtx, content)
    requires Replay(rules, t, genesis, blocks, p).Some?
    requires b in t && b != genesis && IsAncestor(t, genesis, Some(b), p)
    requires 0 < k < |blocks[b].vtx| && i < |blocks[b].vtx[k].vin|
    requires Minting(content(blocks[b].vtx[k].vin[i].prevout.hash))
    ensures c in t && c in blocks && IsAncestor(t, genesis, Some(c), Some(b))
    ensures Holds(blocks[c], blocks[b].vtx[k].vin[i].prevout.hash) && t[b].nHeight - t[c].nHeight >= 30
  {
    hide AllOf, Recorded, Sound, Connect, LawfulButPay, Holds, IsAncestor, Spendable;
    LawfulOnBranch(rules, t, genesis, blocks, content, p, b);
    var prev := Parent(t, genesis, b);
    var u, o := Replay(rules, t, genesis, blocks, prev).value, blocks[b].vtx[k].vin[i].prevout;
    InputIsThere(rules, u, content, blocks[b], t[b].nHeight, k, i);
    assert Deep(u, content, o.hash, t[b].nHeight);
    HeightsTrue(rules, t, genesis, blocks, content, prev);
    assert HeightTrue(t, genesis, blocks, prev, o.hash, u[o.hash].nHeight);
    c :| c in t && c in blocks && IsAncestor(t, genesis, Some(c), prev) && t[c].nHeight == u[o.hash].nHeight
         && Holds(blocks[c], o.hash);
    AncestorStep(t, genesis, b);
  }
}

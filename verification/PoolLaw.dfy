/** What a transaction has to be like for the pool to take it, told in numbers and by the transactions it spends
    from. */
module PoolLaw {
  import opened Coins
  import opened Ledger
  import opened Maturity
  import opened BlockLaw
  import MemPool

  /** The output is unspent on the chain; or the chain does not know its transaction, and the pool has it. */
  predicate There(m: map<TxId, Coin>, pool: map<TxId, Tx>, o: OutPoint) {
    if o.hash in m then o.n < |m[o.hash].vout| && m[o.hash].vout[o.n].nValue != -1
    else o.hash in pool && o.n < |pool[o.hash].vout| && pool[o.hash].vout[o.n].nValue != -1
  }

  /** A coinbase that it spends from is on the chain, and thirty blocks below the next one. */
  ghost predicate DeepOnChain(m: map<TxId, Coin>, content: Content, id: TxId, nHeight: int) {
    Minting(content(id)) ==> id in m && nHeight - m[id].nHeight >= 30
  }

  /** Neither chain nor pool know it, its inputs are there, none of them is spent in the pool, they are worth at least
      what it makes and no more than can be, and its scripts pass with all of the strictness there is. */
  ghost predicate WelcomeLaw(rules: Rules, content: Content, m: map<TxId, Coin>, pool: map<TxId, Tx>, tx: Tx,
                             nHeight: int) {
    var values := Values(Spent(content, tx));
    && TxLaw(tx) && !Minting(tx) && tx.nLockTime <= 2_147_483_647
    && tx.txid !in pool && tx.txid !in m
    && (forall x, n, i :: x in pool && 0 <= n < |pool[x].vin| && 0 <= i < |tx.vin| ==>
                            pool[x].vin[n].prevout != tx.vin[i].prevout)
    && (forall i :: 0 <= i < |tx.vin| ==> There(m, pool, tx.vin[i].prevout))
    && (forall i :: 0 <= i < |tx.vin| ==> DeepOnChain(m, content, tx.vin[i].prevout.hash, nHeight))
    && (forall i :: 0 <= i < |values| ==> values[i] >= 0)
    && Sum(Values(tx.vout)) <= Sum(values) <= 206_500_000_000_000_000
    && ScriptsPass(rules, content, tx, Flags(true, true))
  }

  lemma ThereIff(m: map<TxId, Coin>, pool: map<TxId, Tx>, o: OutPoint)
    ensures Available(Live(MemPool.PoolContents(m, pool)), o) <==> There(m, pool, o)
  {
    var all := MemPool.PoolContents(m, pool);
    assert o.hash in m ==> all[o.hash] == m[o.hash];
    assert There(m, pool, o) ==> !all[o.hash].IsPruned() by {
      if There(m, pool, o) {
        assert !all[o.hash].vout[o.n].IsNull();
      }
    }
  }

  lemma DeepIff(m: map<TxId, Coin>, pool: map<TxId, Tx>, content: Content, o: OutPoint, nHeight: int)
    requires There(m, pool, o) && forall x <- pool :: pool[x] == content(x) && !Minting(pool[x])
    ensures Deep(Live(MemPool.PoolContents(m, pool)), content, o.hash, nHeight) <==>
            DeepOnChain(m, content, o.hash, nHeight)
  {
    var all := MemPool.PoolContents(m, pool);
    ThereIff(m, pool, o);
    assert o.hash in m ==> all[o.hash] == m[o.hash];
  }

  /** The pool takes a transaction in exactly if the law says so and policy lets it. */
  lemma WelcomeIff(rules: Rules, content: Content, m: map<TxId, Coin>, pool: map<TxId, Tx>, tx: Tx, nHeight: int,
                   policy: bool)
    requires Recorded(Live(m), content) && forall x <- pool :: pool[x] == content(x) && !Minting(pool[x])
    ensures MemPool.Welcome(rules, m, pool, tx, nHeight, policy) <==>
              WelcomeLaw(rules, content, m, pool, tx, nHeight) && policy
  {
    hide Recorded, Live, CheckInputs, AllScriptsOk, TxLaw, CheckTransaction, ScriptsPass, Sum, Spent, There, Deep,
         DeepOnChain, Available, MemPool.PoolContents;
    var all := MemPool.PoolContents(m, pool);
    CheckTransactionIff(tx);
    MemPool.PoolRecorded(m, pool, content);
    forall i | 0 <= i < |tx.vin|
      ensures Available(Live(all), tx.vin[i].prevout) <==> There(m, pool, tx.vin[i].prevout)
      ensures There(m, pool, tx.vin[i].prevout) ==>
                (Deep(Live(all), content, tx.vin[i].prevout.hash, nHeight) <==>
                 DeepOnChain(m, content, tx.vin[i].prevout.hash, nHeight))
    {
      ThereIff(m, pool, tx.vin[i].prevout);
      if There(m, pool, tx.vin[i].prevout) {
        DeepIff(m, pool, content, tx.vin[i].prevout, nHeight);
      }
    }
    KnownToEither(m, pool, tx.txid);
    if !tx.IsCoinBase() && HaveInputs(Live(all), tx) && TxLaw(tx) {
      CheckInputsIff(Live(all), content, tx, nHeight);
      AllScriptsIff(rules, Live(all), content, tx, POOL_FLAGS);
    }
  }

  lemma KnownToEither(m: map<TxId, Coin>, pool: map<TxId, Tx>, id: TxId)
    ensures id in MemPool.PoolContents(m, pool) <==> id in m || id in pool
  {
  }
}

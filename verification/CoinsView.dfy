/** The stack of coin views: a database at the bottom, and caches above it that read through. */
module CoinsView {
  import opened Options
  import opened Coins
  import opened Ledger
  import opened Stored
  import opened Fading

  /** What the database keeps of a batch: no fully spent records, and of negative numbers what can be read back. */
  function Stores(m: map<TxId, Coin>): map<TxId, Coin> {
    map id | id in m && !m[id].IsPruned() :: StoredCoin(m[id])
  }

  /** Handing all that a cache holds to the database loses what cannot be read back of it, and no more. */
  lemma StoringFades(db: map<TxId, Coin>, cache: map<TxId, Coin>)
    ensures Live((db - cache.Keys) + Stores(cache)) == Faded(Live(db + cache), cache.Keys)
  {
    var after, before := (db - cache.Keys) + Stores(cache), db + cache;
    forall id ensures id in Live(after) <==> id in Live(before) {
      StoredPruned(db, cache, id);
    }
    forall id | id in Live(before) ensures Live(after)[id] == Faded(Live(before), cache.Keys)[id] {
      StoredPruned(db, cache, id);
    }
    hide Live, Faded, Stores;
    SameMaps(Live(after), Faded(Live(before), cache.Keys));
  }

  /** There are no fully spent records. */
  ghost predicate AllUnspent(m: map<TxId, Coin>) {
    forall id <- m :: !m[id].IsPruned()
  }

  lemma StoringDropsSpent(db: map<TxId, Coin>, cache: map<TxId, Coin>)
    requires AllUnspent(db)
    ensures AllUnspent((db - cache.Keys) + Stores(cache))
  {
    forall id | id in cache && !cache[id].IsPruned() ensures !StoredCoin(cache[id]).IsPruned() {
    }
  }

  lemma StoredPruned(db: map<TxId, Coin>, cache: map<TxId, Coin>, id: TxId)
    ensures var after, before := (db - cache.Keys) + Stores(cache), db + cache;
            && (id in Live(after) <==> id in Live(before))
            && (id in Live(before) ==>
                  Live(after)[id] == if id in cache.Keys then StoredCoin(before[id]) else before[id])
  {
    if id in cache {
      assert StoredCoin(cache[id]).IsPruned() == cache[id].IsPruned();
    }
  }

  lemma SameMaps(a: Utxo, b: Utxo)
    requires (forall id :: id in a <==> id in b) && forall id <- a :: id in b && a[id] == b[id]
    ensures a == b
  {
  }

  class View {
    /** The view below, or null for the database. */
    const base: View?
    ghost const Repr: set<object>

    var cacheCoins: map<TxId, Coin>
    var pindexTip: Option<BlockHash>

    ghost predicate Valid()
      decreases Repr
    {
      && this in Repr
      && (base != null ==> base in Repr && base.Repr <= Repr && this !in base.Repr && base.Valid())
    }

    /** What a lookup through the whole stack finds. */
    ghost function Contents(): map<TxId, Coin>
      requires Valid()
      reads Repr
      decreases Repr
    {
      if base == null then cacheCoins else base.Contents() + cacheCoins
    }

    ghost function Best(): Option<BlockHash>
      requires Valid()
      reads Repr
      decreases Repr
    {
      if pindexTip.Some? || base == null then pindexTip else base.Best()
    }

    /** What the database holds. */
    ghost function Store(): map<TxId, Coin>
      requires Valid()
      reads Repr
      decreases Repr
    {
      if base == null then cacheCoins else base.Store()
    }

    /** The view below still shows what it showed, from the same database. */
    twostate predicate BaseUnmoved()
      requires Valid()
      reads Repr
    {
      base != null ==>
        base.Contents() == old(base.Contents()) && base.Best() == old(base.Best()) && base.Store() == old(base.Store())
    }

    /** Only what is cached where may have changed. */
    twostate predicate ShowsSame()
      requires Valid()
      reads Repr
    {
      BaseUnmoved() && Contents() == old(Contents()) && Best() == old(Best()) && Store() == old(Store())
    }

    twostate predicate Unmoved()
      requires Valid()
      reads Repr
    {
      ShowsSame() && pindexTip == old(pindexTip)
    }

    /** Nothing that there was an entry for has none. */
    twostate predicate Grown()
      requires Valid()
      reads Repr
    {
      old(Contents()).Keys <= Contents().Keys
    }

    /** The database, empty. */
    constructor Database()
      ensures Valid() && Repr == {this} && base == null
      ensures Contents() == map[] && Best() == None && Store() == map[]
    {
      base, Repr := null, {this};
      cacheCoins, pindexTip := map[], None;
    }

    constructor Cache(base: View)
      requires base.Valid()
      ensures Valid() && this.base == base && Repr == {this} + base.Repr
      ensures pindexTip == None
      ensures Contents() == base.Contents() && Best() == base.Best() && Store() == base.Store()
    {
      this.base, Repr := base, {this} + base.Repr;
      cacheCoins, pindexTip := map[], None;
    }

    /** Reads through to the view below and remembers what it finds. */
    method FetchCoins(txid: TxId) returns (c: Option<Coin>)
      requires Valid()
      modifies Repr
      ensures Unmoved()
      ensures c == if txid in Contents() then Some(Contents()[txid]) else None
      decreases Repr
    {
      if txid in cacheCoins {
        return Some(cacheCoins[txid]);
      }
      if base == null {
        return None;
      }
      c := base.FetchCoins(txid);
      if c.Some? {
        cacheCoins := cacheCoins[txid := c.value];
      }
    }

    method SetCoins(txid: TxId, c: Coin)
      requires Valid() && base != null
      modifies this`cacheCoins
      ensures BaseUnmoved()
      ensures Contents() == old(Contents())[txid := c] && Best() == old(Best()) && pindexTip == old(pindexTip)
    {
      cacheCoins := cacheCoins[txid := c];
    }

    method GetBestBlock() returns (b: Option<BlockHash>)
      requires Valid()
      modifies Repr
      ensures ShowsSame() && b == Best() && b == pindexTip
      decreases Repr
    {
      if pindexTip == None && base != null {
        var tip := base.GetBestBlock();
        pindexTip := tip;
      }
      b := pindexTip;
    }

    method SetBestBlock(b: BlockHash)
      requires Valid()
      modifies this`pindexTip
      ensures BaseUnmoved()
      ensures Contents() == old(Contents()) && pindexTip == Some(b) && Best() == Some(b)
    {
      pindexTip := Some(b);
    }

    method BatchWrite(mapCoins: map<TxId, Coin>, tip: Option<BlockHash>)
      requires Valid()
      modifies this
      ensures BaseUnmoved()
      ensures base != null ==> Contents() == old(Contents()) + mapCoins && pindexTip == tip
      ensures base == null ==> Contents() == (old(Contents()) - mapCoins.Keys) + Stores(mapCoins)
      ensures base == null ==> pindexTip == if tip.Some? then tip else old(pindexTip)
    {
      if base != null {
        cacheCoins := cacheCoins + mapCoins;
        pindexTip := tip;
      } else {
        cacheCoins := (cacheCoins - mapCoins.Keys) + Stores(mapCoins);
        if tip.Some? {
          pindexTip := tip;
        }
      }
    }

    /** Hands everything to the view below, which then shows what this one shows; the database does so but for what
        cannot be read back. */
    method Flush()
      requires Valid() && base != null && pindexTip.Some?
      modifies this, base
      ensures base.BaseUnmoved()
      ensures base.Best() == old(Best()) && Best() == old(Best()) && pindexTip == old(pindexTip)
      ensures Contents() == base.Contents() && cacheCoins == map[]
      ensures base.base != null ==> base.Contents() == old(Contents()) && base.pindexTip == pindexTip
      ensures base.base == null ==> Live(base.Contents()) == Faded(Live(old(Contents())), old(cacheCoins).Keys)
      ensures AllUnspent(old(Store())) ==> AllUnspent(Store())
      ensures base.base == null && AllUnspent(old(Store())) ==> AllUnspent(Contents())
    {
      hide Live, Faded, Stores, AllUnspent;
      StoringFades(base.Contents(), cacheCoins);
      if AllUnspent(base.Contents()) {
        StoringDropsSpent(base.Contents(), cacheCoins);
      }
      assert base.base == null ==> base.Store() == base.Contents();
      assert base.base != null ==> base.Store() == base.base.Store();
      base.BatchWrite(cacheCoins, pindexTip);
      cacheCoins := map[];
      assert Store() == base.Store();
      assert base.base == null ==> base.Store() == base.Contents();
      assert base.base != null ==> base.Store() == base.base.Store();
    }
  }
}

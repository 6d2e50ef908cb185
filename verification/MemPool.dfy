/** The memory pool: transactions waiting for a block, and which of their inputs spends what. */
module MemPool {
  import opened Options
  import opened Coins
  import opened CoinsView
  import opened BlockTree
  import opened Availability
  import opened Maturity
  import BlockConnect
  import Ledger

  /** Input `n` of pool transaction `ptx`. */
  datatype InPoint = InPoint(ptx: TxId, n: nat)

  /** A transaction's hash is over its inputs, so it is later than theirs. */
  type Rank = TxId -> nat

  /** Some input of `y` spends an output of `p`. */
  predicate Spends(y: Tx, p: Tx) {
    exists n :: 0 <= n < |y.vin| && IsOutput(y.vin[n].prevout, p)
  }

  ghost predicate NoSpender(pool: map<TxId, Tx>, p: Tx) {
    forall x <- pool :: !Spends(pool[x], p)
  }

  /** `x` spends an output of `t`, or of a pool transaction that does, and so on. */
  ghost predicate Descends(pool: map<TxId, Tx>, rank: Rank, x: TxId, t: Tx)
    decreases rank(x)
  {
    x in pool && (Spends(pool[x], t) || exists p :: Between(pool, rank, x, p) && Descends(pool, rank, p, t))
  }

  ghost predicate Between(pool: map<TxId, Tx>, rank: Rank, x: TxId, p: TxId) {
    x in pool && p in pool && rank(p) < rank(x) && Spends(pool[x], pool[p])
  }

  ghost predicate Ranked(pool: map<TxId, Tx>, rank: Rank) {
    forall x <- pool :: pool[x].txid == x && RankedTx(pool[x], rank)
  }

  ghost predicate RankedTx(tx: Tx, rank: Rank) {
    forall n :: 0 <= n < |tx.vin| ==> rank(tx.vin[n].prevout.hash) < rank(tx.txid)
  }

  /** What spends what is recorded exactly: every entry is an input of a pool transaction, and every input has its
      entry. */
  ghost predicate NextExact(pool: map<TxId, Tx>, next: map<OutPoint, InPoint>) {
    && (forall o <- next :: EntryOk(pool, o, next[o]))
    && (forall x, n :: x in pool && 0 <= n < |pool[x].vin| ==> InputOk(pool, next, x, n))
  }

  ghost predicate EntryOk(pool: map<TxId, Tx>, o: OutPoint, p: InPoint) {
    p.ptx in pool && p.n < |pool[p.ptx].vin| && pool[p.ptx].vin[p.n].prevout == o
  }

  ghost predicate InputOk(pool: map<TxId, Tx>, next: map<OutPoint, InPoint>, x: TxId, n: int)
    requires x in pool && 0 <= n < |pool[x].vin|
  {
    pool[x].vin[n].prevout in next && next[pool[x].vin[n].prevout] == InPoint(x, n)
  }

  ghost predicate Sub(a: map<TxId, Tx>, b: map<TxId, Tx>) {
    forall x <- a :: x in b && a[x] == b[x]
  }

  /** No two inputs in the pool, of one transaction or of two, spend the same output. */
  lemma NoDoubleSpend(pool: map<TxId, Tx>, next: map<OutPoint, InPoint>, x: TxId, n: nat, y: TxId, m: nat)
    requires NextExact(pool, next) && x in pool && n < |pool[x].vin| && y in pool && m < |pool[y].vin|
    requires pool[x].vin[n].prevout == pool[y].vin[m].prevout
    ensures x == y && n == m
  {
    assert InputOk(pool, next, x, n) && InputOk(pool, next, y, m);
  }

  function PrevOuts(vin: seq<TxIn>): set<OutPoint> {
    set i | 0 <= i < |vin| :: vin[i].prevout
  }

  // ---- one transaction in or out ----

  lemma AddKeeps(pool: map<TxId, Tx>, next: map<OutPoint, InPoint>, rank: Rank, tx: Tx, next': map<OutPoint, InPoint>)
    requires Ranked(pool, rank) && NextExact(pool, next) && tx.txid !in pool && RankedTx(tx, rank)
    requires Ledger.DistinctInputs(tx.vin) && forall i :: 0 <= i < |tx.vin| ==> tx.vin[i].prevout !in next
    requires forall o :: o in next' <==> o in next || o in PrevOuts(tx.vin)
    requires forall o <- next :: o in next' && next'[o] == next[o]
    requires forall i :: 0 <= i < |tx.vin|
               ==> tx.vin[i].prevout in next' && next'[tx.vin[i].prevout] == InPoint(tx.txid, i)
    ensures Ranked(pool[tx.txid := tx], rank) && NextExact(pool[tx.txid := tx], next')
  {
    var pool' := pool[tx.txid := tx];
    forall o | o in next' ensures EntryOk(pool', o, next'[o]) {
      if o in next {
        assert EntryOk(pool, o, next[o]);
      }
    }
    forall x, n | x in pool' && 0 <= n < |pool'[x].vin| ensures InputOk(pool', next', x, n) {
      if x != tx.txid {
        assert InputOk(pool, next, x, n);
      }
    }
  }

  lemma EraseKeeps(pool: map<TxId, Tx>, next: map<OutPoint, InPoint>, rank: Rank, tx: Tx)
    requires Ranked(pool, rank) && NextExact(pool, next) && tx.txid in pool && pool[tx.txid] == tx
    ensures Ranked(pool - {tx.txid}, rank) && NextExact(pool - {tx.txid}, next - PrevOuts(tx.vin))
  {
    var pool' := pool - {tx.txid};
    var next' := next - PrevOuts(tx.vin);
    forall o | o in next' ensures EntryOk(pool', o, next'[o]) {
      assert EntryOk(pool, o, next[o]);
    }
    forall x, n | x in pool' && 0 <= n < |pool'[x].vin| ensures InputOk(pool', next', x, n) {
      assert InputOk(pool, next, x, n);
      forall i | 0 <= i < |tx.vin| ensures tx.vin[i].prevout != pool[x].vin[n].prevout {
        assert InputOk(pool, next, tx.txid, i);
      }
    }
  }

  // ---- descent ----

  lemma SubTransitive(a: map<TxId, Tx>, b: map<TxId, Tx>, c: map<TxId, Tx>)
    requires Sub(a, b) && Sub(b, c)
    ensures Sub(a, c)
  {
  }

  lemma {:induction false} DescendsInLarger(a: map<TxId, Tx>, b: map<TxId, Tx>, rank: Rank, x: TxId, t: Tx)
    requires Sub(a, b) && Descends(a, rank, x, t)
    ensures Descends(b, rank, x, t)
    decreases rank(x)
  {
    if !Spends(a[x], t) {
      var p :| Between(a, rank, x, p) && Descends(a, rank, p, t);
      DescendsInLarger(a, b, rank, p, t);
      assert Between(b, rank, x, p);
    }
  }

  /** What descends from a child of `t` descends from `t`. */
  lemma {:induction false} DescendsFurther(pool: map<TxId, Tx>, rank: Rank, x: TxId, c: TxId, t: Tx)
    requires Ranked(pool, rank) && c in pool && Spends(pool[c], t) && Descends(pool, rank, x, pool[c])
    ensures Descends(pool, rank, x, t)
    decreases rank(x)
  {
    if Spends(pool[x], pool[c]) {
      SpenderIsLater(pool, rank, x, c);
      assert Descends(pool, rank, c, t);
    } else {
      var p :| Between(pool, rank, x, p) && Descends(pool, rank, p, pool[c]);
      DescendsFurther(pool, rank, p, c, t);
    }
  }

  /** What descends from a parent descends from what that one descends from. */
  lemma {:induction false} ParentFirst(pool: map<TxId, Tx>, rank: Rank, x: TxId, p: TxId)
    requires Ranked(pool, rank) && x in pool && p in pool && Spends(pool[x], pool[p])
    ensures Descends(pool, rank, x, pool[p])
    ensures forall q :: q in pool && Descends(pool, rank, p, pool[q]) ==> Descends(pool, rank, x, pool[q])
  {
    SpenderIsLater(pool, rank, x, p);
  }

  lemma SpenderIsLater(pool: map<TxId, Tx>, rank: Rank, x: TxId, p: TxId)
    requires Ranked(pool, rank) && x in pool && p in pool && Spends(pool[x], pool[p])
    ensures Between(pool, rank, x, p)
  {
    var n :| 0 <= n < |pool[x].vin| && IsOutput(pool[x].vin[n].prevout, pool[p]);
  }

  lemma {:induction false} DescendantIsLater(pool: map<TxId, Tx>, rank: Rank, x: TxId, t: Tx)
    requires Ranked(pool, rank) && Descends(pool, rank, x, t)
    ensures rank(x) > rank(t.txid)
    decreases rank(x)
  {
    if Spends(pool[x], t) {
      var n :| 0 <= n < |pool[x].vin| && IsOutput(pool[x].vin[n].prevout, t);
    } else {
      var p :| Between(pool, rank, x, p) && Descends(pool, rank, p, t);
      DescendantIsLater(pool, rank, p, t);
    }
  }

  /** If nothing left in the pool spends `t` or anything that was removed, all that descended from `t` was removed. */
  lemma {:induction false} AllGone(before: map<TxId, Tx>, after: map<TxId, Tx>, rank: Rank, x: TxId, t: Tx)
    requires Sub(after, before) && Descends(before, rank, x, t) && NoSpender(after, t)
    requires forall p <- before :: p !in after ==> NoSpender(after, before[p])
    ensures x !in after
    decreases rank(x)
  {
    if !Spends(before[x], t) {
      var p :| Between(before, rank, x, p) && Descends(before, rank, p, t);
      AllGone(before, after, rank, p, t);
      assert NoSpender(after, before[p]);
    }
  }

  /** The pool transactions later than a given one. */
  ghost function Later(pool: map<TxId, Tx>, rank: Rank, t: TxId): set<TxId> {
    set x | x in pool && rank(x) > rank(t)
  }

  lemma FewerLater(pool: map<TxId, Tx>, current: map<TxId, Tx>, rank: Rank, t: TxId, c: TxId)
    requires Sub(current, pool) && c in current && rank(c) > rank(t)
    ensures |Later(current, rank, c)| < |Later(pool, rank, t)|
  {
    assert c in Later(pool, rank, t) && c !in Later(current, rank, c);
    assert Later(current, rank, c) <= Later(pool, rank, t) - {c};
    Smaller(Later(current, rank, c), Later(pool, rank, t) - {c});
  }

  lemma Smaller(a: set<TxId>, b: set<TxId>)
    requires a <= b
    ensures |a| <= |b|
  {
    assert b == a + (b - a);
  }

  /** What removing recursively has done so far: `after` is what is left of `before`, only descendants of `t` are gone,
      and nothing that is left spends what is gone. */
  ghost predicate Pruning(before: map<TxId, Tx>, after: map<TxId, Tx>, rank: Rank, t: Tx) {
    && Sub(after, before)
    && forall x <- before :: x !in after ==> Descends(before, rank, x, t) && NoSpender(after, before[x])
  }

  lemma {:induction false} PruneChild(before: map<TxId, Tx>, a: map<TxId, Tx>, b: map<TxId, Tx>, rank: Rank, t: Tx,
                                      c: TxId)
    requires Ranked(before, rank) && Pruning(before, a, rank, t) && c in a && Spends(a[c], t)
    requires Sub(b, a) && NoSpender(b, a[c])
    requires forall x <- a :: x !in b <==> x == c || Descends(a, rank, x, a[c])
    requires forall x <- a :: x !in b ==> NoSpender(b, a[x])
    ensures Pruning(before, b, rank, t)
  {
    SubTransitive(b, a, before);
    forall x | x in before && x !in b ensures Descends(before, rank, x, t) && NoSpender(b, before[x]) {
      if x in a {
        if x != c {
          DescendsInLarger(a, before, rank, x, a[c]);
          DescendsFurther(before, rank, x, c, t);
        }
      } else {
        SmallerPool(a, b, before[x]);
      }
    }
  }

  lemma SmallerPool(a: map<TxId, Tx>, b: map<TxId, Tx>, p: Tx)
    requires Sub(b, a) && NoSpender(a, p)
    ensures NoSpender(b, p)
  {
  }

  lemma PruningStarts(before: map<TxId, Tx>, rank: Rank, t: Tx)
    ensures Pruning(before, before, rank, t)
  {
  }

  lemma PruningSub(before: map<TxId, Tx>, after: map<TxId, Tx>, rank: Rank, t: Tx)
    requires Pruning(before, after, rank, t)
    ensures Sub(after, before)
  {
  }

  lemma EntrySpends(pool: map<TxId, Tx>, next: map<OutPoint, InPoint>, rank: Rank, o: OutPoint, t: Tx, i: nat)
    requires Ranked(pool, rank) && NextExact(pool, next) && o in next && o == OutPoint(t.txid, i) && i < |t.vout|
    ensures var x := next[o].ptx; x in pool && pool[x].txid == x && Spends(pool[x], t) && rank(x) > rank(t.txid)
  {
    assert EntryOk(pool, o, next[o]);
    assert IsOutput(pool[next[o].ptx].vin[next[o].n].prevout, t);
  }

  /** A smaller pool records fewer spends. */
  lemma NextShrinks(a: map<TxId, Tx>, next: map<OutPoint, InPoint>, b: map<TxId, Tx>, next': map<OutPoint, InPoint>)
    requires NextExact(a, next) && NextExact(b, next') && Sub(b, a)
    ensures forall o <- next' :: o in next && next'[o] == next[o]
  {
    forall o | o in next' ensures o in next && next'[o] == next[o] {
      assert EntryOk(b, o, next'[o]);
      assert InputOk(a, next, next'[o].ptx, next'[o].n);
    }
  }

  /** With its spender gone, an output is spent by nothing in the pool. */
  lemma NothingSpends(b: map<TxId, Tx>, next: map<OutPoint, InPoint>, o: OutPoint, child: Tx)
    requires NextExact(b, next) && child.txid !in b && (o in next ==> next[o].ptx == child.txid)
    ensures o !in next
  {
    assert o in next ==> EntryOk(b, o, next[o]);
  }

  lemma NoneLeft(pool: map<TxId, Tx>, next: map<OutPoint, InPoint>, t: Tx)
    requires NextExact(pool, next) && forall j :: 0 <= j < |t.vout| ==> OutPoint(t.txid, j) !in next
    ensures NoSpender(pool, t)
  {
    forall x, n | x in pool && 0 <= n < |pool[x].vin| ensures !IsOutput(pool[x].vin[n].prevout, t) {
      assert InputOk(pool, next, x, n);
      var o := pool[x].vin[n].prevout;
      assert o.hash == t.txid ==> o == OutPoint(t.txid, o.n);
    }
  }

  lemma RankedIds(pool: map<TxId, Tx>, rank: Rank)
    requires Ranked(pool, rank)
    ensures forall x <- pool :: pool[x].txid == x
  {
  }

  lemma RootStays(before: map<TxId, Tx>, after: map<TxId, Tx>, rank: Rank, t: Tx)
    requires Ranked(before, rank) && Pruning(before, after, rank, t)
    ensures t.txid in after <==> t.txid in before
  {
    if t.txid in before && t.txid !in after {
      DescendantIsLater(before, rank, t.txid, t);
    }
  }

  lemma {:induction false} PruneRoot(before: map<TxId, Tx>, middle: map<TxId, Tx>, after: map<TxId, Tx>, rank: Rank,
                                     t: Tx)
    requires Pruning(before, middle, rank, t) && NoSpender(middle, t) && after == middle - {t.txid}
    requires t.txid in before ==> before[t.txid] == t
    ensures Sub(after, before) && NoSpender(after, t)
    ensures forall x <- before :: x !in after <==> x == t.txid || Descends(before, rank, x, t)
    ensures forall x <- before :: x !in after ==> NoSpender(after, before[x])
  {
    hide Spends, Descends;
    forall x | x in before && Descends(before, rank, x, t) ensures x !in after {
      AllGone(before, middle, rank, x, t);
    }
  }

  predicate NoConflict(y: Tx, tx: Tx) {
    forall n, i :: 0 <= n < |y.vin| && 0 <= i < |tx.vin| ==> y.vin[n].prevout != tx.vin[i].prevout
  }

  /** A transaction is the one in the pool if that has its hash. */
  ghost predicate Known(pool: map<TxId, Tx>, tx: Tx) {
    tx.txid in pool ==> pool[tx.txid] == tx
  }

  /** Neither the transaction itself is in the pool nor anything that spends what it spends. */
  ghost predicate Absent(pool: map<TxId, Tx>, tx: Tx) {
    tx.txid !in pool && forall x <- pool :: NoConflict(pool[x], tx)
  }

  ghost predicate OwnInput(next: map<OutPoint, InPoint>, tx: Tx, k: nat)
    requires k < |tx.vin|
  {
    tx.vin[k].prevout in next ==> next[tx.vin[k].prevout].ptx == tx.txid
  }

  lemma PoolEntry(pool: map<TxId, Tx>, next: map<OutPoint, InPoint>, rank: Rank, o: OutPoint)
    requires Ranked(pool, rank) && NextExact(pool, next) && o in next
    ensures next[o].ptx in pool && pool[next[o].ptx].txid == next[o].ptx
  {
    assert EntryOk(pool, o, next[o]);
  }

  lemma ConflictThere(pool: map<TxId, Tx>, next: map<OutPoint, InPoint>, tx: Tx, i: nat)
    requires NextExact(pool, next) && i < |tx.vin| && tx.vin[i].prevout in next
    ensures next[tx.vin[i].prevout].ptx in pool && !NoConflict(pool[next[tx.vin[i].prevout].ptx], tx)
  {
    assert EntryOk(pool, tx.vin[i].prevout, next[tx.vin[i].prevout]);
  }

  /** A transaction that is in the pool has no conflict there. */
  lemma ConflictIsOutside(pool: map<TxId, Tx>, next: map<OutPoint, InPoint>, tx: Tx, i: nat)
    requires NextExact(pool, next) && Known(pool, tx) && i < |tx.vin| && !OwnInput(next, tx, i)
    ensures tx.txid !in pool
  {
    assert tx.txid in pool ==> InputOk(pool, next, tx.txid, i);
  }

  lemma StillGone(before: map<TxId, Tx>, a: map<TxId, Tx>, b: map<TxId, Tx>)
    requires Sub(a, before) && Sub(b, a) && (forall x <- before :: x !in a ==> NoSpender(a, before[x]))
    requires forall x <- a :: x !in b ==> NoSpender(b, a[x])
    ensures Sub(b, before) && forall x <- before :: x !in b ==> NoSpender(b, before[x])
  {
    forall x | x in before && x !in b ensures NoSpender(b, before[x]) {
      if x !in a {
        SmallerPool(a, b, before[x]);
      }
    }
  }

  lemma OnlyOwn(pool: map<TxId, Tx>, next: map<OutPoint, InPoint>, tx: Tx)
    requires NextExact(pool, next) && forall k :: 0 <= k < |tx.vin| ==> OwnInput(next, tx, k)
    ensures forall x <- pool :: x != tx.txid ==> NoConflict(pool[x], tx)
  {
    forall x, n, i | x in pool && x != tx.txid && 0 <= n < |pool[x].vin| && 0 <= i < |tx.vin|
      ensures pool[x].vin[n].prevout != tx.vin[i].prevout
    {
      assert InputOk(pool, next, x, n) && OwnInput(next, tx, i);
    }
  }

  // ---- what the pool's transactions spend ----

  /** The height at which pool transactions are taken to be. */
  const MEMPOOL_HEIGHT: nat := 0x7FFF_FFFF

  /** What the chain's view and the pool behind it show; spends by pool transactions do not count. */
  function PoolContents(m: map<TxId, Coin>, pool: map<TxId, Tx>): map<TxId, Coin> {
    (map id | id in pool :: FromTx(pool[id], MEMPOOL_HEIGHT)) + m
  }

  /** The output is there to be spent, on the chain or in the pool. */
  predicate Backed(pool: map<TxId, Tx>, u: Ledger.Utxo, o: OutPoint) {
    Ledger.Available(u, o) || (o.hash in pool && o.n < |pool[o.hash].vout|)
  }

  /** Whatever a pool transaction spends is there to be spent. */
  ghost predicate Supported(pool: map<TxId, Tx>, u: Ledger.Utxo) {
    SupportedBut(pool, u, iset{})
  }

  /** Whatever a pool transaction spends is there to be spent, or is one of `gone`. */
  ghost predicate SupportedBut(pool: map<TxId, Tx>, u: Ledger.Utxo, gone: iset<OutPoint>) {
    forall x, n :: x in pool && 0 <= n < |pool[x].vin| ==> InputBacked(pool, u, gone, pool[x].vin[n].prevout)
  }

  ghost predicate InputBacked(pool: map<TxId, Tx>, u: Ledger.Utxo, gone: iset<OutPoint>, o: OutPoint) {
    Backed(pool, u, o) || o in gone
  }

  /** The tests against chain and pool that do not depend on policy. */
  predicate InputsGood(rules: Ledger.Rules, m: map<TxId, Coin>, tx: Tx, nHeight: int)
    requires !tx.IsCoinBase()
  {
    var u := Ledger.Live(m);
    && tx.txid !in m && Ledger.HaveInputs(u, tx)
    && Ledger.CheckInputs(u, tx, nHeight) && Ledger.AllScriptsOk(rules, u, tx, Ledger.POOL_FLAGS)
  }

  lemma BackedInputs(m: map<TxId, Coin>, pool: map<TxId, Tx>, o: OutPoint)
    requires Ledger.Available(Ledger.Live(PoolContents(m, pool)), o)
    ensures Backed(pool, Ledger.Live(m), o)
  {
  }

  lemma {:induction false} SameValueIn(a: Ledger.Utxo, b: Ledger.Utxo, vin: seq<TxIn>)
    requires forall i :: 0 <= i < |vin| ==>
               && Ledger.Available(a, vin[i].prevout) && Ledger.Available(b, vin[i].prevout)
               && a[vin[i].prevout.hash] == b[vin[i].prevout.hash]
    ensures Ledger.ValueIn(a, vin) == Ledger.ValueIn(b, vin)
  {
    if vin != [] {
      SameValueIn(a, b, vin[..|vin| - 1]);
      assert Ledger.Available(a, vin[|vin| - 1].prevout) && Ledger.Available(b, vin[|vin| - 1].prevout);
    }
  }

  /** A transaction is judged by the records of what it spends alone. */
  lemma SameInputs(rules: Ledger.Rules, a: map<TxId, Coin>, b: map<TxId, Coin>, tx: Tx, nHeight: int)
    requires !tx.IsCoinBase()
    requires forall i :: 0 <= i < |tx.vin| ==>
               var h := tx.vin[i].prevout.hash; h in a && h in b && a[h] == b[h]
    ensures Ledger.HaveInputs(Ledger.Live(a), tx) == Ledger.HaveInputs(Ledger.Live(b), tx)
    ensures Ledger.HaveInputs(Ledger.Live(a), tx) ==>
              && Ledger.CheckInputs(Ledger.Live(a), tx, nHeight) == Ledger.CheckInputs(Ledger.Live(b), tx, nHeight)
              && Ledger.AllScriptsOk(rules, Ledger.Live(a), tx, Ledger.POOL_FLAGS)
                 == Ledger.AllScriptsOk(rules, Ledger.Live(b), tx, Ledger.POOL_FLAGS)
  {
    var (u, v) := (Ledger.Live(a), Ledger.Live(b));
    forall i | 0 <= i < |tx.vin|
      ensures Ledger.Available(u, tx.vin[i].prevout) == Ledger.Available(v, tx.vin[i].prevout)
      ensures Ledger.Available(u, tx.vin[i].prevout) ==>
                var h := tx.vin[i].prevout.hash; h in u && h in v && u[h] == v[h]
    {
      BlockConnect.LiveGet(a, tx.vin[i].prevout);
      BlockConnect.LiveGet(b, tx.vin[i].prevout);
    }
    if Ledger.HaveInputs(u, tx) {
      hide Ledger.Live;
      SameChecks(rules, u, v, tx, nHeight);
    }
  }

  lemma SameChecks(rules: Ledger.Rules, u: Ledger.Utxo, v: Ledger.Utxo, tx: Tx, nHeight: int)
    requires !tx.IsCoinBase() && Ledger.HaveInputs(u, tx) && Ledger.HaveInputs(v, tx)
    requires forall i :: 0 <= i < |tx.vin| ==>
               var h := tx.vin[i].prevout.hash; h in u && h in v && u[h] == v[h]
    ensures Ledger.CheckInputs(u, tx, nHeight) == Ledger.CheckInputs(v, tx, nHeight)
    ensures Ledger.AllScriptsOk(rules, u, tx, Ledger.POOL_FLAGS)
         == Ledger.AllScriptsOk(rules, v, tx, Ledger.POOL_FLAGS)
  {
    assert Ledger.PrevOuts(u, tx) == Ledger.PrevOuts(v, tx);
    SameValueIn(u, v, tx.vin);
    forall i | 0 <= i < |tx.vin| ensures Ledger.InputOk(u, tx, nHeight, i) == Ledger.InputOk(v, tx, nHeight, i) {
      SameValueIn(u, v, tx.vin[..i + 1]);
    }
  }

  // ---- a reorganisation ----

  /** The transaction is in the connected branch or in conflict with it. */
  predicate Leaves(x: Tx, vDelete: seq<Tx>) {
    exists k :: 0 <= k < |vDelete| && (x.txid == vDelete[k].txid || !NoConflict(x, vDelete[k]))
  }

  /** What the pool's transactions spend is there, or may yet be: it is an output of a transaction still to be
      resurrected, or the connected branch has made it, or it is one of `gone`; or the spender has to leave. */
  ghost predicate Pending(pool: map<TxId, Tx>, u: Ledger.Utxo, vResurrect: seq<Tx>, vDelete: seq<Tx>,
                          gone: iset<OutPoint>) {
    forall x, n :: x in pool && 0 <= n < |pool[x].vin| ==>
                     Claimed(pool, u, vResurrect, vDelete, gone, pool[x], pool[x].vin[n].prevout)
  }

  ghost predicate Claimed(pool: map<TxId, Tx>, u: Ledger.Utxo, vResurrect: seq<Tx>, vDelete: seq<Tx>,
                          gone: iset<OutPoint>, x: Tx, o: OutPoint) {
    InputBacked(pool, u, gone, o) || Creates(vResurrect, o) || Creates(vDelete, o) || Leaves(x, vDelete)
  }

  /** What the connected branch makes and does not spend is there. */
  ghost predicate Settled(u: Ledger.Utxo, vDelete: seq<Tx>) {
    forall o :: Creates(vDelete, o) && !SpendsAny(vDelete, o) ==> Ledger.Available(u, o)
  }

  lemma PendingAccepted(pool: map<TxId, Tx>, u: Ledger.Utxo, tx: Tx, rest: seq<Tx>, vDelete: seq<Tx>,
                         gone: iset<OutPoint>)
    requires Pending(pool, u, [tx] + rest, vDelete, gone) && tx.txid !in pool
    requires forall n :: 0 <= n < |tx.vin| ==> Backed(pool, u, tx.vin[n].prevout)
    ensures Pending(pool[tx.txid := tx], u, rest, vDelete, gone)
  {
    hide Leaves, Ledger.Available;
    var pool' := pool[tx.txid := tx];
    forall x, n | x in pool' && 0 <= n < |pool'[x].vin|
      ensures Claimed(pool', u, rest, vDelete, gone, pool'[x], pool'[x].vin[n].prevout)
    {
      var o := pool'[x].vin[n].prevout;
      if x != tx.txid {
        assert Claimed(pool, u, [tx] + rest, vDelete, gone, pool[x], o);
        CreatesFirst(tx, rest, o);
      }
    }
  }

  /** The pool after an attempt to take `tx` back. */
  ghost predicate Resurrected(m: map<TxId, Coin>, before: map<TxId, Tx>, after: map<TxId, Tx>, tx: Tx) {
    || (&& after == before[tx.txid := tx] && tx.txid !in before
        && forall n :: 0 <= n < |tx.vin| ==> Ledger.Available(Ledger.Live(PoolContents(m, before)), tx.vin[n].prevout))
    || (&& Sub(after, before) && NoSpender(after, tx)
        && forall x <- before :: x !in after ==> before[x].txid == x && NoSpender(after, before[x]))
  }

  lemma PendingStep(before: map<TxId, Tx>, after: map<TxId, Tx>, m: map<TxId, Coin>, tx: Tx, rest: seq<Tx>,
                    vDelete: seq<Tx>,
                         gone: iset<OutPoint>)
    requires Pending(before, Ledger.Live(m), [tx] + rest, vDelete, gone) && Resurrected(m, before, after, tx)
    ensures Pending(after, Ledger.Live(m), rest, vDelete, gone)
  {
    hide Pending, Ledger.Live, Ledger.Available, NoSpender, PoolContents, Backed;
    if tx.txid !in before && after == before[tx.txid := tx]
       && forall n :: 0 <= n < |tx.vin| ==> Ledger.Available(Ledger.Live(PoolContents(m, before)), tx.vin[n].prevout) {
      forall n | 0 <= n < |tx.vin| ensures Backed(before, Ledger.Live(m), tx.vin[n].prevout) {
        BackedInputs(m, before, tx.vin[n].prevout);
      }
      PendingAccepted(before, Ledger.Live(m), tx, rest, vDelete, gone);
    } else {
      PendingRefused(before, after, Ledger.Live(m), tx, rest, vDelete, gone);
    }
  }

  lemma CreatesFirst(tx: Tx, rest: seq<Tx>, o: OutPoint)
    ensures Creates([tx] + rest, o) <==> IsOutput(o, tx) || Creates(rest, o)
  {
    var all := [tx] + rest;
    if IsOutput(o, tx) {
      assert IsOutput(o, all[0]);
    }
    if Creates(rest, o) {
      var k :| 0 <= k < |rest| && IsOutput(o, rest[k]);
      assert IsOutput(o, all[k + 1]);
    }
  }

  lemma PendingRefused(before: map<TxId, Tx>, after: map<TxId, Tx>, u: Ledger.Utxo, tx: Tx, rest: seq<Tx>,
                       vDelete: seq<Tx>,
                         gone: iset<OutPoint>)
    requires Pending(before, u, [tx] + rest, vDelete, gone) && Sub(after, before) && NoSpender(after, tx)
    requires forall x <- before :: x !in after ==> before[x].txid == x && NoSpender(after, before[x])
    ensures Pending(after, u, rest, vDelete, gone)
  {
    hide Leaves, Ledger.Available;
    forall x, n | x in after && 0 <= n < |after[x].vin|
      ensures Claimed(after, u, rest, vDelete, gone, after[x], after[x].vin[n].prevout)
    {
      var o := after[x].vin[n].prevout;
      assert Claimed(before, u, [tx] + rest, vDelete, gone, before[x], o);
      CreatesFirst(tx, rest, o);
      assert !Spends(after[x], tx);
      if o.hash in before && o.hash !in after {
        assert !Spends(after[x], before[o.hash]);
        assert !IsOutput(o, before[o.hash]);
      }
    }
  }

  lemma MissingInput(m: map<TxId, Coin>, tx: Tx)
    requires !tx.IsCoinBase() && !forall i :: 0 <= i < |tx.vin| ==> tx.vin[i].prevout.hash in m
    ensures !Ledger.HaveInputs(Ledger.Live(m), tx)
  {
    var i :| 0 <= i < |tx.vin| && tx.vin[i].prevout.hash !in m;
    BlockConnect.LiveGet(m, tx.vin[i].prevout);
  }

  lemma CheckedIsDistinct(tx: Tx)
    requires Ledger.CheckTransaction(tx)
    ensures Ledger.DistinctInputs(tx.vin)
  {
  }

  lemma StillGoneOrConnected(before: map<TxId, Tx>, first: map<TxId, Tx>, second: map<TxId, Tx>, vDelete: seq<Tx>,
                             k: nat)
    requires k < |vDelete| && Sub(first, before) && Sub(second, first)
    requires forall x <- before :: x !in first ==> GoneOrConnected(first, before[x], vDelete)
    requires forall x <- first :: x !in second ==> first[x] == vDelete[k] || NoSpender(second, first[x])
    ensures Sub(second, before) && forall x <- before :: x !in second ==> GoneOrConnected(second, before[x], vDelete)
  {
    hide Spends;
    forall x | x in before && x !in second ensures GoneOrConnected(second, before[x], vDelete) {
      if x !in first {
        assert GoneOrConnected(first, before[x], vDelete);
        if NoSpender(first, before[x]) {
          SmallerPool(first, second, before[x]);
        }
      } else if before[x] == vDelete[k] {
        assert vDelete[k] == before[x];
      }
    }
  }

  /** A transaction whose inputs are good is supported by chain and pool. */
  lemma AcceptedIsSupported(rules: Ledger.Rules, m: map<TxId, Coin>, pool: map<TxId, Tx>, tx: Tx, nHeight: int)
    requires Supported(pool, Ledger.Live(m)) && tx.txid !in pool && !tx.IsCoinBase()
    requires InputsGood(rules, PoolContents(m, pool), tx, nHeight)
    ensures Supported(pool[tx.txid := tx], Ledger.Live(m))
  {
    hide Ledger.Live, Ledger.Available, PoolContents;
    var pool' := pool[tx.txid := tx];
    forall x, n | x in pool' && 0 <= n < |pool'[x].vin|
      ensures InputBacked(pool', Ledger.Live(m), iset{}, pool'[x].vin[n].prevout)
    {
      if x == tx.txid {
        BackedInputs(m, pool, tx.vin[n].prevout);
      } else {
        assert InputBacked(pool, Ledger.Live(m), iset{}, pool[x].vin[n].prevout);
      }
    }
  }

  // ---- what has been settled on entering ----

  /** Of every pool transaction all is in order that does not depend on the chain. */
  ghost predicate AllFair(rules: Ledger.Rules, content: Content, pool: map<TxId, Tx>) {
    forall x <- pool :: Fair(rules, content, pool[x])
  }

  lemma PoolRecorded(m: map<TxId, Coin>, pool: map<TxId, Tx>, content: Content)
    requires Recorded(Ledger.Live(m), content) && forall x <- pool :: pool[x] == content(x)
    ensures Recorded(Ledger.Live(PoolContents(m, pool)), content)
  {
    var all := PoolContents(m, pool);
    forall id | id in Ledger.Live(all) ensures RecordOf(Ledger.Live(all)[id], content(id)) {
      assert id in m ==> id in Ledger.Live(m) && Ledger.Live(m)[id] == all[id];
    }
  }

  lemma AcceptedIsFair(rules: Ledger.Rules, m: map<TxId, Coin>, pool: map<TxId, Tx>, content: Content, tx: Tx,
                       nHeight: int)
    requires Recorded(Ledger.Live(m), content) && forall x <- pool :: pool[x] == content(x)
    requires !tx.IsCoinBase() && InputsGood(rules, PoolContents(m, pool), tx, nHeight)
    ensures Fair(rules, content, tx)
  {
    hide Recorded, Ledger.Live, PoolContents, Ledger.CheckInputs, Ledger.AllScriptsOk, Fair;
    PoolRecorded(m, pool, content);
    JudgedBy(rules, Ledger.Live(PoolContents(m, pool)), content, tx, nHeight);
  }

  /** A pool transaction still passes the tests, against the chain and the rest of the pool, exactly if the chain does
      not know it, its inputs are there, and the coinbases it spends are buried deep enough. */
  lemma StillGood(rules: Ledger.Rules, m: map<TxId, Coin>, pool: map<TxId, Tx>, content: Content, x: TxId, nHeight: int)
    requires Recorded(Ledger.Live(m), content) && (forall y <- pool :: pool[y] == content(y))
    requires x in pool && pool[x].txid == x && !pool[x].IsCoinBase() && AllFair(rules, content, pool)
    ensures var tx, all := pool[x], PoolContents(m, pool - {x});
            InputsGood(rules, all, tx, nHeight) <==>
              && x !in m && Ledger.HaveInputs(Ledger.Live(all), tx) && Mature(Ledger.Live(all), tx, nHeight)
  {
    hide Recorded, Ledger.Live, Ledger.CheckInputs, Ledger.AllScriptsOk, Ledger.HaveInputs, Fair, Mature;
    var rest := pool - {x};
    assert Fair(rules, content, pool[x]);
    PoolRecorded(m, rest, content);
    assert x in PoolContents(m, rest) <==> x in m;
    if Ledger.HaveInputs(Ledger.Live(PoolContents(m, rest)), pool[x]) {
      JudgedBy(rules, Ledger.Live(PoolContents(m, rest)), content, pool[x], nHeight);
    }
  }

  /** Gone with all that spends it, or gone into the connected branch. */
  ghost predicate GoneOrConnected(pool: map<TxId, Tx>, tx: Tx, vDelete: seq<Tx>) {
    NoSpender(pool, tx) || exists k :: 0 <= k < |vDelete| && vDelete[k] == tx
  }

  lemma PendingDeleted(before: map<TxId, Tx>, after: map<TxId, Tx>, u: Ledger.Utxo, vDelete: seq<Tx>,
                         gone: iset<OutPoint>)
    requires Pending(before, u, [], vDelete, gone) && Settled(u, vDelete) && Sub(after, before)
    requires (forall x <- before :: before[x].txid == x)
    requires forall x <- before :: x !in after ==> GoneOrConnected(after, before[x], vDelete)
    requires forall k :: 0 <= k < |vDelete| ==> Absent(after, vDelete[k])
    ensures SupportedBut(after, u, gone)
  {
    hide Ledger.Available;
    forall x, n | x in after && 0 <= n < |after[x].vin| ensures InputBacked(after, u, gone, after[x].vin[n].prevout) {
      var o := after[x].vin[n].prevout;
      assert Claimed(before, u, [], vDelete, gone, before[x], o);
      NotLeaving(after, x, vDelete);
      NotSpentBy(after, x, n, vDelete);
      if o.hash in before && o.hash !in after && o.n < |before[o.hash].vout| {
        assert IsOutput(o, before[o.hash]);
        assert GoneOrConnected(after, before[o.hash], vDelete);
        assert Spends(after[x], before[o.hash]);
        assert Creates(vDelete, o);
      }
    }
  }

  lemma NotLeaving(pool: map<TxId, Tx>, x: TxId, vDelete: seq<Tx>)
    requires x in pool && pool[x].txid == x && forall k :: 0 <= k < |vDelete| ==> Absent(pool, vDelete[k])
    ensures !Leaves(pool[x], vDelete)
  {
    forall k | 0 <= k < |vDelete| ensures x != vDelete[k].txid && NoConflict(pool[x], vDelete[k]) {
      assert Absent(pool, vDelete[k]);
    }
  }

  /** What the connected branch spends is spent by nothing that stays. */
  lemma RivalLeaves(x: Tx, n: nat, vDelete: seq<Tx>)
    requires n < |x.vin| && SpendsAny(vDelete, x.vin[n].prevout)
    ensures Leaves(x, vDelete)
  {
    var k :| 0 <= k < |vDelete| && Takes(vDelete[k], x.vin[n].prevout);
    assert !NoConflict(x, vDelete[k]);
  }

  lemma NotSpentBy(pool: map<TxId, Tx>, x: TxId, n: nat, vDelete: seq<Tx>)
    requires x in pool && pool[x].txid == x && n < |pool[x].vin|
    requires forall k :: 0 <= k < |vDelete| ==> Absent(pool, vDelete[k])
    ensures !SpendsAny(vDelete, pool[x].vin[n].prevout)
  {
    NotLeaving(pool, x, vDelete);
    if SpendsAny(vDelete, pool[x].vin[n].prevout) {
      RivalLeaves(pool[x], n, vDelete);
    }
  }

  /** The connected branch has nothing to do with the pool. */
  ghost predicate Unconcerned(pool: map<TxId, Tx>, vDelete: seq<Tx>) {
    forall k :: 0 <= k < |vDelete| ==> Absent(pool, vDelete[k])
  }

  // ---- what a reorganisation leaves where it is ----

  /** A transaction that is none of those that move, spends none of those that may come back, and is in no conflict with
      those that were connected. */
  ghost predicate Undisturbed(x: Tx, vResurrect: seq<Tx>, vDelete: seq<Tx>) {
    && (forall k :: 0 <= k < |vResurrect| ==> ApartFrom(x, vResurrect[k]))
    && (forall k :: 0 <= k < |vDelete| ==> x.txid != vDelete[k].txid && NoConflict(x, vDelete[k]))
  }

  predicate ApartFrom(x: Tx, tx: Tx) {
    x.txid != tx.txid && !Spends(x, tx)
  }

  /** Pool transactions that spend, of the pool, from one another only. */
  ghost predicate Closed(pool: map<TxId, Tx>, kept: set<TxId>) {
    && (forall x <- kept :: x in pool)
    && forall x, p :: x in kept && p in pool && Spends(pool[x], pool[p]) ==> p in kept
  }

  ghost predicate Untouched(pool: map<TxId, Tx>, kept: set<TxId>, vResurrect: seq<Tx>, vDelete: seq<Tx>) {
    Closed(pool, kept) && forall x <- kept :: Undisturbed(pool[x], vResurrect, vDelete)
  }

  lemma {:induction false} NotDescended(pool: map<TxId, Tx>, rank: Rank, kept: set<TxId>, x: TxId, t: Tx)
    requires Closed(pool, kept) && x in kept && forall y <- kept :: !Spends(pool[y], t)
    ensures !Descends(pool, rank, x, t)
    decreases rank(x)
  {
    if Descends(pool, rank, x, t) {
      var p :| Between(pool, rank, x, p) && Descends(pool, rank, p, t);
      NotDescended(pool, rank, kept, p, t);
      assert false;
    }
  }

  /** Removing a transaction and what descends from it keeps those apart from it. */
  lemma {:induction false} KeptThroughRemove(before: map<TxId, Tx>, after: map<TxId, Tx>, rank: Rank, kept: set<TxId>,
                                             t: Tx, fRecursive: bool)
    requires Closed(before, kept) && Sub(after, before)
    requires forall x <- kept :: x != t.txid && (fRecursive ==> !Spends(before[x], t))
    requires forall x <- before :: x !in after <==> x == t.txid || (fRecursive && Descends(before, rank, x, t))
    ensures Closed(after, kept) && forall x <- kept :: after[x] == before[x]
  {
    hide Spends, Descends;
    forall x | x in kept ensures x in after {
      if fRecursive {
        NotDescended(before, rank, kept, x, t);
      }
    }
  }

  lemma KeptThroughAdd(before: map<TxId, Tx>, tx: Tx, kept: set<TxId>)
    requires Closed(before, kept) && tx.txid !in before && forall x <- kept :: ApartFrom(before[x], tx)
    ensures Closed(before[tx.txid := tx], kept)
  {
  }

  /** If one of the kept transactions spends an output that is nowhere, not all is there. */
  lemma Stranded(pool: map<TxId, Tx>, u: Ledger.Utxo, x: TxId, n: nat)
    requires x in pool && n < |pool[x].vin|
    requires pool[x].vin[n].prevout.hash !in pool && !Ledger.Available(u, pool[x].vin[n].prevout)
    ensures !Supported(pool, u)
  {
    assert !InputBacked(pool, u, iset{}, pool[x].vin[n].prevout);
  }

  lemma KeptApart(before: map<TxId, Tx>, pool: map<TxId, Tx>, content: TxId -> Tx, kept: set<TxId>,
                  vResurrect: seq<Tx>, vDelete: seq<Tx>, k: nat)
    requires Untouched(before, kept, vResurrect, vDelete) && Closed(pool, kept) && k < |vResurrect|
    requires (forall x <- before :: before[x] == content(x)) && forall x <- pool :: pool[x] == content(x)
    ensures forall x <- kept :: ApartFrom(pool[x], vResurrect[k])
  {
    hide Spends, NoConflict;
    forall x | x in kept ensures ApartFrom(pool[x], vResurrect[k]) {
      assert Undisturbed(before[x], vResurrect, vDelete);
    }
  }

  lemma KeptUntouched(before: map<TxId, Tx>, pool: map<TxId, Tx>, content: TxId -> Tx, kept: set<TxId>,
                      vResurrect: seq<Tx>, vDelete: seq<Tx>)
    requires Untouched(before, kept, vResurrect, vDelete) && Closed(pool, kept)
    requires (forall x <- before :: before[x] == content(x)) && forall x <- pool :: pool[x] == content(x)
    ensures Untouched(pool, kept, [], vDelete)
  {
    hide Spends, NoConflict;
    forall x | x in kept ensures Undisturbed(pool[x], [], vDelete) {
      assert Undisturbed(before[x], vResurrect, vDelete);
    }
  }

  /** What the pool may hold after a reorganisation: what it held, and what came back. */
  ghost predicate FromBefore(before: map<TxId, Tx>, after: map<TxId, Tx>, vResurrect: seq<Tx>) {
    forall x <- after :: x in before || exists k :: 0 <= k < |vResurrect| && vResurrect[k].txid == x
  }

  // ---- the pool as a value ----

  /** The pool without a transaction and all that descends from it. */
  ghost function Without(pool: map<TxId, Tx>, rank: Rank, t: Tx): map<TxId, Tx> {
    map x | x in pool && x != t.txid && !Descends(pool, rank, x, t) :: pool[x]
  }

  /** Spends something that `tx` spends, and is not `tx`. */
  ghost predicate Rival(pool: map<TxId, Tx>, c: TxId, tx: Tx) {
    c in pool && c != tx.txid && !NoConflict(pool[c], tx)
  }

  ghost predicate FromRival(pool: map<TxId, Tx>, rank: Rank, x: TxId, tx: Tx) {
    exists c :: Rival(pool, c, tx) && (x == c || Descends(pool, rank, x, pool[c]))
  }

  ghost function WithoutRivals(pool: map<TxId, Tx>, rank: Rank, tx: Tx): map<TxId, Tx> {
    map x | x in pool && !FromRival(pool, rank, x, tx) :: pool[x]
  }

  /** The pool after a transaction was connected: without it, but not without what descends from it; and without its
      rivals and what descends from those. */
  ghost function AfterConnected(pool: map<TxId, Tx>, rank: Rank, tx: Tx): map<TxId, Tx> {
    WithoutRivals(pool - {tx.txid}, rank, tx)
  }

  ghost function AfterAllConnected(pool: map<TxId, Tx>, rank: Rank, vDelete: seq<Tx>): map<TxId, Tx> {
    if vDelete == [] then pool
    else AfterConnected(AfterAllConnected(pool, rank, vDelete[..|vDelete| - 1]), rank, vDelete[|vDelete| - 1])
  }

  /** The pool takes the transaction in, if policy does. */
  ghost predicate Welcome(rules: Ledger.Rules, m: map<TxId, Coin>, pool: map<TxId, Tx>, tx: Tx, nHeight: int,
                          policy: bool) {
    && Ledger.CheckTransaction(tx) && !tx.IsCoinBase() && tx.nLockTime <= 0x7FFF_FFFF && policy
    && tx.txid !in pool && (forall x <- pool :: NoConflict(pool[x], tx))
    && InputsGood(rules, PoolContents(m, pool), tx, nHeight)
  }

  /** A disconnected transaction's turn: it is taken in, or goes with all that descends from it. */
  ghost function AfterTurn(rules: Ledger.Rules, m: map<TxId, Coin>, pool: map<TxId, Tx>, rank: Rank, tx: Tx,
                           nHeight: int, policy: bool): map<TxId, Tx> {
    if Welcome(rules, m, pool, tx, nHeight, policy) then pool[tx.txid := tx] else Without(pool, rank, tx)
  }

  ghost function AfterTurns(rules: Ledger.Rules, m: map<TxId, Coin>, pool: map<TxId, Tx>, rank: Rank,
                            vResurrect: seq<Tx>, nHeight: int, policy: seq<bool>): map<TxId, Tx>
    requires |policy| == |vResurrect|
  {
    if vResurrect == [] then pool
    else
      var k := |vResurrect| - 1;
      AfterTurn(rules, m, AfterTurns(rules, m, pool, rank, vResurrect[..k], nHeight, policy[..k]), rank, vResurrect[k],
                nHeight, policy[k])
  }

  lemma {:induction false} NoTurns(rules: Ledger.Rules, m: map<TxId, Coin>, pool: map<TxId, Tx>, rank: Rank,
                                   nHeight: int)
    ensures AfterTurns(rules, m, pool, rank, [], nHeight, []) == pool
  {
  }

  lemma {:induction false} NextTurn(rules: Ledger.Rules, m: map<TxId, Coin>, pool: map<TxId, Tx>, before: map<TxId, Tx>,
                                    after: map<TxId, Tx>, rank: Rank, vResurrect: seq<Tx>, k: nat, nHeight: int,
                                    policy: seq<bool>, taken: bool)
    requires k < |vResurrect| && |policy| == k
    requires before == AfterTurns(rules, m, pool, rank, vResurrect[..k], nHeight, policy)
    requires after == AfterTurn(rules, m, before, rank, vResurrect[k], nHeight, taken)
    ensures after == AfterTurns(rules, m, pool, rank, vResurrect[..k + 1], nHeight, policy + [taken])
  {
    hide AfterTurn;
    assert vResurrect[..k + 1][..k] == vResurrect[..k] && (policy + [taken])[..k] == policy;
  }

  lemma {:induction false} TurnsFromBefore(rules: Ledger.Rules, m: map<TxId, Coin>, pool: map<TxId, Tx>, rank: Rank,
                                           vResurrect: seq<Tx>, nHeight: int, policy: seq<bool>)
    requires |policy| == |vResurrect|
    ensures FromBefore(pool, AfterTurns(rules, m, pool, rank, vResurrect, nHeight, policy), vResurrect)
  {
    hide Welcome, Descends;
    if vResurrect != [] {
      var k := |vResurrect| - 1;
      TurnsFromBefore(rules, m, pool, rank, vResurrect[..k], nHeight, policy[..k]);
      var after := AfterTurns(rules, m, pool, rank, vResurrect, nHeight, policy);
      forall x | x in after && x !in pool ensures exists k :: 0 <= k < |vResurrect| && vResurrect[k].txid == x {
        if x != vResurrect[k].txid {
          var j :| 0 <= j < k && vResurrect[..k][j].txid == x;
          assert vResurrect[j].txid == x;
        }
      }
    }
  }

  /** Ranked by age, and each transaction the one that its hash stands for. */
  ghost predicate InOrder(pool: map<TxId, Tx>, rank: Rank, content: Content) {
    Ranked(pool, rank) && forall x <- pool :: pool[x] == content(x)
  }

  lemma TurnIs(rules: Ledger.Rules, m: map<TxId, Coin>, pool: map<TxId, Tx>, rank: Rank, content: Content, tx: Tx,
               nHeight: int, policy: bool)
    requires InOrder(pool, rank, content) && content(tx.txid) == tx && RankedTx(tx, rank)
    ensures var after := AfterTurn(rules, m, pool, rank, tx, nHeight, policy);
            Resurrected(m, pool, after, tx) && InOrder(after, rank, content)
  {
    hide Spends, Ledger.CheckTransaction, Ledger.CheckInputs, Ledger.AllScriptsOk, PoolContents, Ledger.Live, RankedTx;
    var after := AfterTurn(rules, m, pool, rank, tx, nHeight, policy);
    if !Welcome(rules, m, pool, tx, nHeight, policy) {
      forall x, y | x in pool && x !in after && y in after ensures !Spends(after[y], pool[x]) {
        if x != tx.txid && Spends(pool[y], pool[x]) {
          SpenderIsLater(pool, rank, y, x);
        }
      }
    }
  }

  lemma {:induction false} TurnsPending(rules: Ledger.Rules, m: map<TxId, Coin>, pool: map<TxId, Tx>, rank: Rank,
                                        content: Content, vResurrect: seq<Tx>, nHeight: int, policy: seq<bool>,
                                        k: nat, vDelete: seq<Tx>, gone: iset<OutPoint>)
    requires |policy| == |vResurrect| && k <= |vResurrect| && InOrder(pool, rank, content)
    requires forall j :: 0 <= j < |vResurrect| ==> content(vResurrect[j].txid) == vResurrect[j]
    requires forall j :: 0 <= j < |vResurrect| ==> RankedTx(vResurrect[j], rank)
    requires Pending(pool, Ledger.Live(m), vResurrect, vDelete, gone)
    ensures var after := AfterTurns(rules, m, pool, rank, vResurrect[..k], nHeight, policy[..k]);
            InOrder(after, rank, content) && Pending(after, Ledger.Live(m), vResurrect[k..], vDelete, gone)
  {
    hide Pending, AfterTurn, InOrder, RankedTx, Resurrected;
    if k > 0 {
      TurnsPending(rules, m, pool, rank, content, vResurrect, nHeight, policy, k - 1, vDelete, gone);
      assert vResurrect[..k][..k - 1] == vResurrect[..k - 1] && policy[..k][..k - 1] == policy[..k - 1];
      assert vResurrect[k - 1..] == [vResurrect[k - 1]] + vResurrect[k..];
      var before := AfterTurns(rules, m, pool, rank, vResurrect[..k - 1], nHeight, policy[..k - 1]);
      TurnIs(rules, m, before, rank, content, vResurrect[k - 1], nHeight, policy[k - 1]);
      PendingStep(before, AfterTurn(rules, m, before, rank, vResurrect[k - 1], nHeight, policy[k - 1]), m,
                  vResurrect[k - 1], vResurrect[k..], vDelete, gone);
    } else {
      assert vResurrect[k..] == vResurrect;
    }
  }

  lemma {:induction false} AllTurnsPending(rules: Ledger.Rules, m: map<TxId, Coin>, pool: map<TxId, Tx>, rank: Rank,
                                           content: Content, vResurrect: seq<Tx>, nHeight: int, policy: seq<bool>,
                                           vDelete: seq<Tx>, gone: iset<OutPoint>)
    requires |policy| == |vResurrect| && InOrder(pool, rank, content)
    requires forall j :: 0 <= j < |vResurrect| ==> content(vResurrect[j].txid) == vResurrect[j]
    requires forall j :: 0 <= j < |vResurrect| ==> RankedTx(vResurrect[j], rank)
    requires Pending(pool, Ledger.Live(m), vResurrect, vDelete, gone)
    ensures Pending(AfterTurns(rules, m, pool, rank, vResurrect, nHeight, policy), Ledger.Live(m), [], vDelete, gone)
  {
    hide Pending, InOrder, RankedTx, AfterTurns;
    TurnsPending(rules, m, pool, rank, content, vResurrect, nHeight, policy, |vResurrect|, vDelete, gone);
    assert vResurrect[..|vResurrect|] == vResurrect && policy[..|vResurrect|] == policy;
    assert vResurrect[|vResurrect|..] == [];
  }

  lemma InputsFree(pool: map<TxId, Tx>, next: map<OutPoint, InPoint>, tx: Tx)
    requires NextExact(pool, next)
    ensures (forall i :: 0 <= i < |tx.vin| ==> tx.vin[i].prevout !in next) <==>
            (forall x <- pool :: NoConflict(pool[x], tx))
  {
    if i :| 0 <= i < |tx.vin| && tx.vin[i].prevout in next {
      ConflictThere(pool, next, tx, i);
    }
    if x :| x in pool && !NoConflict(pool[x], tx) {
      var n, i :| 0 <= n < |pool[x].vin| && 0 <= i < |tx.vin| && pool[x].vin[n].prevout == tx.vin[i].prevout;
      assert InputOk(pool, next, x, n);
    }
  }

  lemma {:induction false} NothingConnected(pool: map<TxId, Tx>, rank: Rank, vDelete: seq<Tx>)
    requires Unconcerned(pool, vDelete)
    ensures AfterAllConnected(pool, rank, vDelete) == pool
  {
    hide Descends, NoConflict;
    if vDelete != [] {
      var k := |vDelete| - 1;
      assert Absent(pool, vDelete[k]);
      NothingConnected(pool, rank, vDelete[..k]);
      assert pool - {vDelete[k].txid} == pool;
      SameEntries(WithoutRivals(pool, rank, vDelete[k]), pool);
    }
  }

  lemma {:induction false} WithoutIs(before: map<TxId, Tx>, after: map<TxId, Tx>, rank: Rank, t: Tx)
    requires Sub(after, before)
    requires forall x <- before :: x !in after <==> x == t.txid || Descends(before, rank, x, t)
    ensures after == Without(before, rank, t)
  {
    hide Descends;
    SameEntries(after, Without(before, rank, t));
  }

  lemma SameEntries(a: map<TxId, Tx>, b: map<TxId, Tx>)
    requires (forall x :: x in a <==> x in b) && forall x <- a :: x in b ==> a[x] == b[x]
    ensures a == b
  {
  }

  /** If no rival is left, nothing left spends what is gone, and only rivals and what descends from them are gone, the
      pool is as without its rivals. */
  lemma WithoutRivalsIs(before: map<TxId, Tx>, after: map<TxId, Tx>, rank: Rank, tx: Tx)
    requires Sub(after, before) && forall x <- after :: x != tx.txid ==> NoConflict(after[x], tx)
    requires forall x <- before :: x !in after ==> NoSpender(after, before[x]) && FromRival(before, rank, x, tx)
    ensures after == WithoutRivals(before, rank, tx)
  {
    hide NoConflict, Descends, NoSpender;
    forall x | x in before && FromRival(before, rank, x, tx) ensures x !in after {
      var c :| Rival(before, c, tx) && (x == c || Descends(before, rank, x, before[c]));
      assert c !in after;
      if x != c {
        AllGone(before, after, rank, x, before[c]);
      }
    }
    SameEntries(after, WithoutRivals(before, rank, tx));
  }

  /** One more rival goes, with what descends from it. */
  lemma {:induction false} RivalGone(before: map<TxId, Tx>, a: map<TxId, Tx>, b: map<TxId, Tx>, rank: Rank, tx: Tx,
                                     c: TxId)
    requires Sub(a, before) && Sub(b, a) && Rival(a, c, tx)
    requires forall x <- a :: x !in b <==> x == c || Descends(a, rank, x, a[c])
    requires forall x <- before :: x !in a ==> FromRival(before, rank, x, tx)
    ensures forall x <- before :: x !in b ==> FromRival(before, rank, x, tx)
  {
    hide NoConflict, Descends;
    assert Rival(before, c, tx);
    forall x | x in before && x !in b ensures FromRival(before, rank, x, tx) {
      if x in a && x != c {
        DescendsInLarger(a, before, rank, x, a[c]);
      }
    }
  }

  lemma SmallerKeeps(rules: Ledger.Rules, content: Content, pool: map<TxId, Tx>, a: map<TxId, Tx>, b: map<TxId, Tx>,
                     vResurrect: seq<Tx>)
    requires Sub(b, a)
    ensures FromBefore(pool, a, vResurrect) ==> FromBefore(pool, b, vResurrect)
    ensures AllFair(rules, content, a) ==> AllFair(rules, content, b)
  {
  }

  class CTxMemPool {
    ghost const rank: Rank
    /** The transaction that a hash is of. */
    ghost const content: TxId -> Tx
    var mapTx: map<TxId, Tx>
    var mapNextTx: map<OutPoint, InPoint>

    ghost predicate Valid()
      reads this
    {
      && Ranked(mapTx, rank) && NextExact(mapTx, mapNextTx)
      && forall x <- mapTx :: mapTx[x] == content(x) && !mapTx[x].IsCoinBase()
    }

    /** Its hash is its own, and younger than those of the transactions it spends from. */
    ghost predicate Genuine(tx: Tx) {
      content(tx.txid) == tx && RankedTx(tx, rank)
    }

    ghost predicate AllGenuine(txs: seq<Tx>) {
      forall k :: 0 <= k < |txs| ==> Genuine(txs[k])
    }

    lemma GenuineInOrder(txs: seq<Tx>)
      requires AllGenuine(txs)
      ensures forall k :: 0 <= k < |txs| ==> content(txs[k].txid) == txs[k] && RankedTx(txs[k], rank)
    {
      assert forall k :: 0 <= k < |txs| ==> Genuine(txs[k]);
    }

    constructor (ghost rank: Rank, ghost content: TxId -> Tx)
      ensures Valid() && mapTx == map[] && this.rank == rank && this.content == content
    {
      this.rank, this.content := rank, content;
      mapTx, mapNextTx := map[], map[];
    }

    method AddUnchecked(hash: TxId, tx: Tx)
      requires Valid() && hash == tx.txid && hash !in mapTx && Genuine(tx) && !tx.IsCoinBase()
      requires Ledger.DistinctInputs(tx.vin) && forall i :: 0 <= i < |tx.vin| ==> tx.vin[i].prevout !in mapNextTx
      modifies this
      ensures Valid() && mapTx == old(mapTx)[hash := tx]
    {
      hide Ranked, NextExact, RankedTx;
      ghost var next := mapNextTx;
      mapTx := mapTx[hash := tx];
      var i := 0;
      while i < |tx.vin|
        invariant i <= |tx.vin| && mapTx == old(mapTx)[hash := tx]
        invariant forall o :: o in mapNextTx <==> o in next || o in PrevOuts(tx.vin[..i])
        invariant forall o <- next :: o in mapNextTx && mapNextTx[o] == next[o]
        invariant forall k :: 0 <= k < i
                    ==> tx.vin[k].prevout in mapNextTx && mapNextTx[tx.vin[k].prevout] == InPoint(hash, k)
      {
        assert PrevOuts(tx.vin[..i + 1]) == PrevOuts(tx.vin[..i]) + {tx.vin[i].prevout};
        mapNextTx := mapNextTx[tx.vin[i].prevout := InPoint(hash, i)];
        i := i + 1;
      }
      assert tx.vin[..i] == tx.vin;
      AddKeeps(old(mapTx), next, rank, tx, mapNextTx);
    }

    /** The record of a transaction on the chain, or else in the pool. */
    method GetCoins(txid: TxId, tip: View) returns (c: Option<Coin>)
      requires tip.Valid() && this !in tip.Repr
      modifies tip.Repr
      ensures tip.Unmoved()
      ensures var m := PoolContents(tip.Contents(), mapTx); c == if txid in m then Some(m[txid]) else None
    {
      c := tip.FetchCoins(txid);
      if c.None? && txid in mapTx {
        c := Some(FromTx(mapTx[txid], MEMPOOL_HEIGHT));
      }
    }

    /** A view of the records that a transaction spends from, if there are all of them. */
    method FetchInputs(tx: Tx, tip: View) returns (have: bool, view: View)
      requires tip.Valid() && this !in tip.Repr && tip.Best().Some?
      modifies tip.Repr
      ensures tip.ShowsSame()
      ensures fresh(view.Repr) && view.Valid() && (have ==> view.pindexTip == tip.Best())
      ensures var m := PoolContents(tip.Contents(), mapTx);
              && have == (forall i :: 0 <= i < |tx.vin| ==> tx.vin[i].prevout.hash in m)
              && (have ==> forall i :: 0 <= i < |tx.vin| ==>
                    var h := tx.vin[i].prevout.hash; h in view.Contents() && view.Contents()[h] == m[h])
    {
      hide PoolContents;
      var dummy := new View.Database();
      view := new View.Cache(dummy);
      ghost var m := PoolContents(tip.Contents(), mapTx);
      for i := 0 to |tx.vin|
        invariant tip.Unmoved() && mapTx == old(mapTx)
        invariant view.Valid() && fresh(view.Repr) && view.Repr !! tip.Repr && view.base != null
        invariant forall h :: h in view.Contents() ==> h in m && view.Contents()[h] == m[h]
        invariant forall k :: 0 <= k < i ==> tx.vin[k].prevout.hash in view.Contents()
      {
        var c := GetCoins(tx.vin[i].prevout.hash, tip);
        if c.None? {
          return false, view;
        }
        view.SetCoins(tx.vin[i].prevout.hash, c.value);
      }
      var best := tip.GetBestBlock();
      view.SetBestBlock(best.value);
      have := true;
    }

    /** Takes a transaction into the pool. `standard` stands for the tests of its form, `policyOk` for those of the
        forms of its inputs, of its fee and of the rate of free transactions. */
    method Accept(rules: Ledger.Rules, tx: Tx, tip: View, t: Tree, standard: bool, fCheckInputs: bool,
                  policyOk: bool) returns (ok: bool)
      requires Valid() && Genuine(tx)
      requires tip.Valid() && this !in tip.Repr && tip.Best().Some? && tip.Best().value in t
      modifies this, tip.Repr
      ensures Valid() && tip.ShowsSame()
      ensures ok <==> Ledger.CheckTransaction(tx) && !tx.IsCoinBase() && tx.nLockTime <= 0x7FFF_FFFF && standard
                      && tx.txid !in old(mapTx)
                      && (forall i :: 0 <= i < |tx.vin| ==> tx.vin[i].prevout !in old(mapNextTx))
                      && (fCheckInputs ==> policyOk && InputsGood(rules, PoolContents(tip.Contents(), old(mapTx)), tx,
                                                                  t[tip.Best().value].nHeight + 1))
      ensures mapTx == if ok then old(mapTx)[tx.txid := tx] else old(mapTx)
      ensures fCheckInputs && old(Supported(mapTx, Ledger.Live(tip.Contents()))) ==>
                Supported(mapTx, Ledger.Live(tip.Contents()))
      ensures fCheckInputs && old(AllFair(rules, content, mapTx)) && Recorded(Ledger.Live(tip.Contents()), content) ==>
                AllFair(rules, content, mapTx)
    {
      hide Ranked, NextExact, RankedTx, PoolContents, InputsGood, Ledger.CheckTransaction, Supported, Ledger.Live,
           Recorded, Fair;
      if !Ledger.CheckTransaction(tx) || tx.IsCoinBase() || tx.nLockTime > 0x7FFF_FFFF || !standard {
        return false;
      }
      if tx.txid in mapTx {
        return false;
      }
      var i := 0;
      while i < |tx.vin|
        invariant i <= |tx.vin| && forall k :: 0 <= k < i ==> tx.vin[k].prevout !in mapNextTx
        invariant mapTx == old(mapTx) && mapNextTx == old(mapNextTx)
      {
        if tx.vin[i].prevout in mapNextTx {
          return false;
        }
        i := i + 1;
      }
      if fCheckInputs {
        var good := CheckAgainst(rules, tx, tip, t, policyOk);
        if !good {
          return false;
        }
        if Recorded(Ledger.Live(tip.Contents()), content) {
          AcceptedIsFair(rules, tip.Contents(), mapTx, content, tx, t[tip.Best().value].nHeight + 1);
        }
        if Supported(mapTx, Ledger.Live(tip.Contents())) {
          AcceptedIsSupported(rules, tip.Contents(), mapTx, tx, t[tip.Best().value].nHeight + 1);
        }
      }
      CheckedIsDistinct(tx);
      AddUnchecked(tx.txid, tx);
      ok := true;
    }

    /** The tests of a transaction against chain and pool. */
    method CheckAgainst(rules: Ledger.Rules, tx: Tx, tip: View, t: Tree, policyOk: bool) returns (good: bool)
      requires !tx.IsCoinBase()
      requires tip.Valid() && this !in tip.Repr && tip.Best().Some? && tip.Best().value in t
      modifies tip.Repr
      ensures tip.ShowsSame()
      ensures good == (policyOk && InputsGood(rules, PoolContents(tip.Contents(), mapTx), tx,
                                              t[tip.Best().value].nHeight + 1))
    {
      hide PoolContents, Ledger.Live, Ledger.HaveInputs, Ledger.CheckInputs, Ledger.AllScriptsOk;
      ghost var m := PoolContents(tip.Contents(), mapTx);
      var there := GetCoins(tx.txid, tip);
      if there.Some? {
        return false;
      }
      var have, view := FetchInputs(tx, tip);
      if !have {
        MissingInput(m, tx);
        return false;
      }
      ghost var nHeight := t[tip.Best().value].nHeight + 1;
      SameInputs(rules, view.Contents(), m, tx, nHeight);
      have := BlockConnect.HaveInputs(tx, view);
      if !have || !policyOk {
        return false;
      }
      var fScripts;
      good, fScripts := BlockConnect.CheckInputs(rules, tx, view, t, true, Ledger.POOL_FLAGS);
      good := good && fScripts;
    }

    /** Removes a transaction, and if so asked everything that descends from it, whether it is itself in the pool or
        not. */
    method Remove(tx: Tx, fRecursive: bool)
      requires Valid() && (tx.txid in mapTx ==> mapTx[tx.txid] == tx)
      modifies this
      ensures Valid() && tx.txid !in mapTx && Sub(mapTx, old(mapTx))
      ensures forall x <- old(mapTx) :: x !in mapTx
                <==> x == tx.txid || (fRecursive && Descends(old(mapTx), rank, x, tx))
      ensures fRecursive ==> NoSpender(mapTx, tx)
      ensures fRecursive ==> forall x <- old(mapTx) :: x !in mapTx ==> NoSpender(mapTx, old(mapTx)[x])
      decreases |Later(mapTx, rank, tx.txid)|, 1
    {
      hide Ranked, NextExact, Spends, Descends, RankedTx;
      ghost var before := mapTx;
      if fRecursive {
        RemoveSpenders(tx);
      }
      ghost var middle := mapTx;
      if tx.txid in mapTx {
        EraseOne(tx);
      }
      if fRecursive {
        PruneRoot(before, middle, mapTx, rank, tx);
      }
    }

    /** The loop over the transaction's outputs. */
    method RemoveSpenders(tx: Tx)
      requires Valid() && (tx.txid in mapTx ==> mapTx[tx.txid] == tx)
      modifies this
      ensures Valid() && Pruning(old(mapTx), mapTx, rank, tx) && NoSpender(mapTx, tx)
      ensures tx.txid in mapTx <==> tx.txid in old(mapTx)
      decreases |Later(mapTx, rank, tx.txid)|, 0
    {
      hide NextExact, Spends, Descends, RankedTx, Pruning, NoSpender, Later;
      ghost var before := mapTx;
      PruningStarts(before, rank, tx);
      var i := 0;
      while i < |tx.vout|
        invariant i <= |tx.vout| && Valid() && Pruning(before, mapTx, rank, tx)
        invariant forall j :: 0 <= j < i ==> OutPoint(tx.txid, j) !in mapNextTx
      {
        var o := OutPoint(tx.txid, i);
        if o in mapNextTx {
          ghost var current, next := mapTx, mapNextTx;
          EntrySpends(mapTx, mapNextTx, rank, o, tx, i);
          var child := mapTx[mapNextTx[o].ptx];
          PruningSub(before, mapTx, rank, tx);
          FewerLater(before, mapTx, rank, tx.txid, child.txid);
          Remove(child, true);
          PruneChild(before, current, mapTx, rank, tx, child.txid);
          NextShrinks(current, next, mapTx, mapNextTx);
          NothingSpends(mapTx, mapNextTx, o, child);
        }
        i := i + 1;
      }
      NoneLeft(mapTx, mapNextTx, tx);
      RootStays(before, mapTx, rank, tx);
    }

    /** Forgets a transaction and what its inputs spend. */
    method EraseOne(tx: Tx)
      requires Valid() && tx.txid in mapTx && mapTx[tx.txid] == tx
      modifies this
      ensures Valid() && mapTx == old(mapTx) - {tx.txid}
    {
      hide Ranked, NextExact;
      ghost var next := mapNextTx;
      var i := 0;
      while i < |tx.vin|
        invariant i <= |tx.vin| && mapTx == old(mapTx) && mapNextTx == next - PrevOuts(tx.vin[..i])
      {
        assert PrevOuts(tx.vin[..i + 1]) == PrevOuts(tx.vin[..i]) + {tx.vin[i].prevout};
        mapNextTx := mapNextTx - {tx.vin[i].prevout};
        i := i + 1;
      }
      assert tx.vin[..i] == tx.vin;
      EraseKeeps(mapTx, next, rank, tx);
      mapTx := mapTx - {tx.txid};
    }

    /** Removes, with everything that descends from it, each pool transaction that spends what `tx` spends. */
    method RemoveConflicts(tx: Tx, ghost kept: set<TxId>)
      requires Valid() && (tx.txid in mapTx ==> mapTx[tx.txid] == tx)
      requires Closed(mapTx, kept) && forall x <- kept :: NoConflict(mapTx[x], tx)
      modifies this
      ensures Valid() && Sub(mapTx, old(mapTx)) && (tx.txid in old(mapTx) ==> tx.txid in mapTx)
      ensures forall x <- mapTx :: x != tx.txid ==> NoConflict(mapTx[x], tx)
      ensures (forall x <- old(mapTx) :: NoConflict(old(mapTx)[x], tx)) ==> mapTx == old(mapTx)
      ensures forall x <- old(mapTx) :: x !in mapTx ==> NoSpender(mapTx, old(mapTx)[x])
      ensures Closed(mapTx, kept) && mapTx == WithoutRivals(old(mapTx), rank, tx)
    {
      hide Ranked, NextExact, Spends, Descends, RankedTx, NoSpender, NoConflict, FromRival;
      ghost var before := mapTx;
      var i := 0;
      while i < |tx.vin|
        invariant i <= |tx.vin| && Valid() && Closed(mapTx, kept)
        invariant Sub(mapTx, before)
        invariant tx.txid in before ==> tx.txid in mapTx
        invariant (forall x <- before :: NoConflict(before[x], tx)) ==> mapTx == before
        invariant forall k :: 0 <= k < i ==> OwnInput(mapNextTx, tx, k)
        invariant forall x <- before :: x !in mapTx ==> NoSpender(mapTx, before[x])
        invariant forall x <- before :: x !in mapTx ==> FromRival(before, rank, x, tx)
      {
        var o := tx.vin[i].prevout;
        if o in mapNextTx {
          PoolEntry(mapTx, mapNextTx, rank, o);
          var conflict := mapTx[mapNextTx[o].ptx];
          if conflict.txid != tx.txid {
            ghost var current, next := mapTx, mapNextTx;
            ConflictThere(mapTx, mapNextTx, tx, i);
            ConflictIsOutside(mapTx, mapNextTx, tx, i);
            Remove(conflict, true);
            KeptThroughRemove(current, mapTx, rank, kept, conflict, true);
            NextShrinks(current, next, mapTx, mapNextTx);
            NothingSpends(mapTx, mapNextTx, o, conflict);
            StillGone(before, current, mapTx);
            RivalGone(before, current, mapTx, rank, tx, conflict.txid);
            forall k | 0 <= k < i ensures OwnInput(mapNextTx, tx, k) {
              assert OwnInput(next, tx, k);
            }
          }
        }
        i := i + 1;
      }
      OnlyOwn(mapTx, mapNextTx, tx);
      WithoutRivalsIs(before, mapTx, rank, tx);
    }

    /** Drops a connected transaction, and what it conflicts with. */
    method DeleteOne(tx: Tx, ghost kept: set<TxId>)
      requires Valid() && Genuine(tx) && Closed(mapTx, kept)
      requires forall x <- kept :: x != tx.txid && NoConflict(mapTx[x], tx)
      modifies this
      ensures Valid() && Sub(mapTx, old(mapTx)) && Absent(mapTx, tx) && Closed(mapTx, kept)
      ensures forall x <- old(mapTx) :: x !in mapTx ==> old(mapTx)[x] == tx || NoSpender(mapTx, old(mapTx)[x])
      ensures mapTx == AfterConnected(old(mapTx), rank, tx)
    {
      hide Ranked, NextExact, Descends, Spends, NoConflict, NoSpender, RankedTx, WithoutRivals;
      ghost var before := mapTx;
      Remove(tx, false);
      KeptThroughRemove(before, mapTx, rank, kept, tx, false);
      SameEntries(mapTx, before - {tx.txid});
      RemoveConflicts(tx, kept);
    }

    /** Drops what a connected branch contains, and what it conflicts with. */
    method DeleteConnected(vDelete: seq<Tx>, ghost kept: set<TxId>)
      requires Valid() && AllGenuine(vDelete) && Untouched(mapTx, kept, [], vDelete)
      modifies this
      ensures Valid() && Sub(mapTx, old(mapTx))
      ensures forall k :: 0 <= k < |vDelete| ==> Absent(mapTx, vDelete[k])
      ensures forall x <- old(mapTx) :: x !in mapTx ==> GoneOrConnected(mapTx, old(mapTx)[x], vDelete)
      ensures Unconcerned(old(mapTx), vDelete) ==> mapTx == old(mapTx)
      ensures Closed(mapTx, kept) && mapTx == AfterAllConnected(old(mapTx), rank, vDelete)
    {
      hide Ranked, NextExact, Descends, Spends, NoConflict, NoSpender, RankedTx, AfterConnected, GoneOrConnected;
      ghost var before := mapTx;
      var k := 0;
      while k < |vDelete|
        invariant k <= |vDelete| && Valid() && Sub(mapTx, before)
        invariant forall j :: 0 <= j < k ==> Absent(mapTx, vDelete[j])
        invariant forall x <- before :: x !in mapTx ==> GoneOrConnected(mapTx, before[x], vDelete)
        invariant Closed(mapTx, kept) && mapTx == AfterAllConnected(before, rank, vDelete[..k])
      {
        assert Genuine(vDelete[k]) && vDelete[..k + 1][..k] == vDelete[..k];
        ghost var first := mapTx;
        DeleteOne(vDelete[k], kept);
        StillGoneOrConnected(before, first, mapTx, vDelete, k);
        k := k + 1;
      }
      assert vDelete[..k] == vDelete;
      if Unconcerned(before, vDelete) {
        NothingConnected(before, rank, vDelete);
      }
    }

    /** Takes a transaction of a disconnected block back, or drops what spends its outputs. */
    method Resurrect(rules: Ledger.Rules, tx: Tx, tip: View, t: Tree, standard: bool, policyOk: bool,
                     ghost kept: set<TxId>)
      requires Valid() && Genuine(tx) && Closed(mapTx, kept) && forall x <- kept :: ApartFrom(mapTx[x], tx)
      requires tip.Valid() && this !in tip.Repr && tip.Best().Some? && tip.Best().value in t
      modifies this, tip.Repr
      ensures Valid() && tip.ShowsSame()
      ensures Closed(mapTx, kept) && forall x <- mapTx :: x in old(mapTx) || x == tx.txid
      ensures mapTx == AfterTurn(rules, tip.Contents(), old(mapTx), rank, tx, t[tip.Best().value].nHeight + 1,
                                 standard && policyOk)
      ensures old(AllFair(rules, content, mapTx)) && Recorded(Ledger.Live(tip.Contents()), content) ==>
                AllFair(rules, content, mapTx)
    {
      hide NextExact, Descends, Spends, NoSpender, RankedTx, Ledger.CheckTransaction, Ledger.Live, PoolContents, Fair,
           Recorded, NoConflict;
      ghost var before := mapTx;
      InputsFree(mapTx, mapNextTx, tx);
      var ok := Accept(rules, tx, tip, t, standard, true, policyOk);
      if ok {
        KeptThroughAdd(before, tx, kept);
      } else {
        Remove(tx, true);
        KeptThroughRemove(before, mapTx, rank, kept, tx, true);
        WithoutIs(before, mapTx, rank, tx);
      }
    }

    /** Gives the transactions of disconnected blocks their turns. */
    method ResurrectAll(rules: Ledger.Rules, vResurrect: seq<Tx>, ghost vDelete: seq<Tx>, tip: View, t: Tree,
                        ghost kept: set<TxId>)
      returns (ghost policy: seq<bool>)
      requires Valid() && AllGenuine(vResurrect) && Untouched(mapTx, kept, vResurrect, vDelete)
      requires tip.Valid() && this !in tip.Repr && tip.Best().Some? && tip.Best().value in t
      modifies this, tip.Repr
      ensures Valid() && tip.ShowsSame() && Closed(mapTx, kept) && |policy| == |vResurrect|
      ensures mapTx == AfterTurns(rules, tip.Contents(), old(mapTx), rank, vResurrect,
                                  t[tip.Best().value].nHeight + 1, policy)
      ensures old(AllFair(rules, content, mapTx)) && Recorded(Ledger.Live(tip.Contents()), content) ==>
                AllFair(rules, content, mapTx)
    {
      hide Ranked, NextExact, Descends, Spends, NoSpender, NoConflict, RankedTx, Ledger.CheckTransaction,
           Ledger.Live, PoolContents, Recorded, AfterTurns, AllFair, AfterTurn;
      policy := [];
      NoTurns(rules, tip.Contents(), mapTx, rank, t[tip.Best().value].nHeight + 1);
      ghost var u := Ledger.Live(tip.Contents());
      var k := 0;
      while k < |vResurrect|
        invariant k <= |vResurrect| && Valid() && tip.ShowsSame()
        invariant Closed(mapTx, kept) && |policy| == k
        invariant mapTx == AfterTurns(rules, tip.Contents(), old(mapTx), rank, vResurrect[..k],
                                      t[tip.Best().value].nHeight + 1, policy)
        invariant old(AllFair(rules, content, mapTx)) && Recorded(u, content) ==> AllFair(rules, content, mapTx)
      {
        assert Genuine(vResurrect[k]);
        var standard: bool, policyOk: bool := *, *;
        ghost var before := mapTx;
        KeptApart(old(mapTx), mapTx, content, kept, vResurrect, vDelete, k);
        Resurrect(rules, vResurrect[k], tip, t, standard, policyOk, kept);
        NextTurn(rules, tip.Contents(), old(mapTx), before, mapTx, rank, vResurrect, k, t[tip.Best().value].nHeight + 1,
                 policy, standard && policyOk);
        policy := policy + [standard && policyOk];
        k := k + 1;
      }
      assert vResurrect[..k] == vResurrect;
    }

    /** What becomes of the pool when the chain is reorganised: transactions of the disconnected branch come back if
        they can, then those of the connected branch go, and all that conflict with them. */
    method Reorganise(rules: Ledger.Rules, vResurrect: seq<Tx>, vDelete: seq<Tx>, tip: View, t: Tree,
                      ghost gone: iset<OutPoint>, ghost kept: set<TxId>)
      returns (ghost policy: seq<bool>)
      requires Valid() && AllGenuine(vResurrect) && AllGenuine(vDelete) && Untouched(mapTx, kept, vResurrect, vDelete)
      requires tip.Valid() && this !in tip.Repr && tip.Best().Some? && tip.Best().value in t
      modifies this, tip.Repr
      ensures Valid() && tip.ShowsSame() && forall k :: 0 <= k < |vDelete| ==> Absent(mapTx, vDelete[k])
      ensures vResurrect == [] && Unconcerned(old(mapTx), vDelete) ==> mapTx == old(mapTx)
      ensures var u := Ledger.Live(tip.Contents());
              old(Pending(mapTx, Ledger.Live(tip.Contents()), vResurrect, vDelete, gone)) && Settled(u, vDelete)
              ==> SupportedBut(mapTx, u, gone)
      ensures Closed(mapTx, kept) && FromBefore(old(mapTx), mapTx, vResurrect) && |policy| == |vResurrect|
      ensures mapTx
           == AfterAllConnected(AfterTurns(rules, tip.Contents(), old(mapTx), rank, vResurrect,
                                           t[tip.Best().value].nHeight + 1, policy), rank, vDelete)
      ensures old(AllFair(rules, content, mapTx)) && Recorded(Ledger.Live(tip.Contents()), content) ==>
                AllFair(rules, content, mapTx)
    {
      hide Ranked, NextExact, Descends, Spends, NoSpender, NoConflict, RankedTx, Absent,
           Ledger.Live, Pending, Settled, PoolContents, Fair, Recorded, AfterTurns, AfterAllConnected,
           AllFair, FromBefore;
      ghost var u := Ledger.Live(tip.Contents());
      ghost var claims := Pending(mapTx, u, vResurrect, vDelete, gone);
      ghost var pool, nHeight := mapTx, t[tip.Best().value].nHeight + 1;
      policy := ResurrectAll(rules, vResurrect, vDelete, tip, t, kept);
      ghost var before := mapTx;
      TurnsFromBefore(rules, tip.Contents(), pool, rank, vResurrect, nHeight, policy);
      if claims {
        GenuineInOrder(vResurrect);
        AllTurnsPending(rules, tip.Contents(), pool, rank, content, vResurrect, nHeight, policy, vDelete, gone);
      }
      if vResurrect == [] {
        NoTurns(rules, tip.Contents(), pool, rank, nHeight);
      }
      KeptUntouched(old(mapTx), mapTx, content, kept, vResurrect, vDelete);
      DeleteConnected(vDelete, kept);
      SmallerKeeps(rules, content, pool, before, mapTx, vResurrect);
      if claims && Settled(u, vDelete) {
        RankedIds(before, rank);
        PendingDeleted(before, mapTx, u, vDelete, gone);
      }
    }

    /** Marks as spent in `coins` the outputs that pool transactions spend. */
    method PruneSpent(hashTx: TxId, coins: CCoins)
      modifies coins
      ensures forall m :: coins.Value().IsAvailable(m)
                <==> old(coins.Value()).IsAvailable(m) && OutPoint(hashTx, m) !in mapNextTx
    {
      var rest := set o | o in mapNextTx && o.hash == hashTx;
      ghost var before := coins.Value();
      while rest != {}
        invariant forall o <- rest :: o in mapNextTx && o.hash == hashTx
        invariant forall m :: coins.Value().IsAvailable(m) <==>
                    before.IsAvailable(m) && (OutPoint(hashTx, m) !in mapNextTx || OutPoint(hashTx, m) in rest)
        decreases |rest|
      {
        var o :| o in rest;
        ghost var c := coins.Value();
        var ok, _ := coins.SpendOutput(o.n);
        if ok {
          SpendOne(c, o.n);
        }
        rest := rest - {o};
      }
    }
  }

  /** Spending an output makes that one unavailable and no other. */
  lemma SpendOne(c: Coin, n: nat)
    requires c.IsAvailable(n)
    ensures forall m :: Spend(c, n).0.IsAvailable(m) <==> c.IsAvailable(m) && m != n
  {
    var spent := c.vout[n := NULL_OUT];
    var left := Trim(spent);
    forall m: nat ensures Spend(c, n).0.IsAvailable(m) <==> c.IsAvailable(m) && m != n {
      assert m < |left| ==> left[m] == spent[m];
      assert |left| <= m < |spent| ==> spent[m].IsNull();
    }
  }
}

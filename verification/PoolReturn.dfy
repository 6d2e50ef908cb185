/** Which transactions of disconnected blocks are in the pool after a switch of the best chain. */
module PoolReturn {
  import opened Coins
  import opened Ledger
  import opened Availability
  import opened Maturity
  import opened MemPool

  /** The turns of transactions `txs` at a pool, on top of what the coin view shows. */
  datatype Turns = Turns(rules: Rules, m: map<TxId, Coin>, pool: map<TxId, Tx>, rank: Rank, txs: seq<Tx>, nHeight: int,
                         policy: seq<bool>) {
    ghost predicate Valid() {
      |policy| == |txs| && forall x <- pool :: pool[x].txid == x
    }

    /** The pool when it is the turn of transaction `j`. */
    ghost function At(j: nat): map<TxId, Tx>
      requires Valid() && j <= |txs|
    {
      AfterTurns(rules, m, pool, rank, txs[..j], nHeight, policy[..j])
    }

    ghost predicate Taken(j: nat)
      requires Valid() && j < |txs|
    {
      Welcome(rules, m, At(j), txs[j], nHeight, policy[j])
    }

    lemma Start()
      requires Valid()
      ensures At(0) == pool
    {
    }

    lemma Step(j: nat)
      requires Valid() && j < |txs|
      ensures At(j + 1) == if Taken(j) then At(j)[txs[j].txid := txs[j]] else Without(At(j), rank, txs[j])
    {
      assert txs[..j + 1][..j] == txs[..j] && policy[..j + 1][..j] == policy[..j];
    }

    /** Its hash has no other turn. */
    predicate Once(j: nat)
      requires j < |txs|
    {
      forall l :: 0 <= l < |txs| && l != j ==> txs[l].txid != txs[j].txid
    }

    /** A transaction is in the pool after all turns exactly if it was taken in at its own, and at none of the later
        ones a transaction was refused that it descended from. */
    lemma {:induction false} TurnDecides(j: nat, n: nat)
      requires Valid() && j < n <= |txs| && Once(j)
      ensures txs[j].txid in At(n) <==>
                Taken(j) && forall l :: j < l < n && !Taken(l) ==> !Descends(At(l), rank, txs[j].txid, txs[l])
      decreases n
    {
      hide Welcome, Descends, AfterTurns;
      Step(n - 1);
      if n - 1 > j {
        TurnDecides(j, n - 1);
      }
    }

    lemma {:induction false} Ids(n: nat)
      requires Valid() && n <= |txs|
      ensures forall x <- At(n) :: At(n)[x].txid == x
      decreases n
    {
      hide Welcome, Descends;
      if n == 0 {
        Start();
      } else {
        Ids(n - 1);
        Step(n - 1);
      }
    }

    /** What is not in the pool at first only its own turn brings in. */
    lemma {:induction false} Outside(x: TxId, n: nat)
      requires Valid() && n <= |txs| && x !in pool && forall l :: 0 <= l < n ==> txs[l].txid != x || !Taken(l)
      ensures x !in At(n)
      decreases n
    {
      hide Welcome, Descends;
      if n == 0 {
        Start();
      } else {
        Outside(x, n - 1);
        Step(n - 1);
      }
    }

    /** No turn of a transaction that the chain knows is taken. */
    lemma KnownIsRefused(j: nat)
      requires Valid() && j < |txs| && txs[j].txid in m
      ensures !Taken(j)
    {
      assert txs[j].txid in PoolContents(m, At(j));
    }

    /** If the chain knows all whose turn it is, none comes back. */
    lemma NoneBack(n: nat)
      requires Valid() && n <= |txs| && forall j :: 0 <= j < |txs| ==> txs[j].txid in m
      ensures forall x <- At(n) :: x in pool
    {
      hide Welcome, Descends, AfterTurns;
      forall x | x in At(n) ensures x in pool {
        forall j | 0 <= j < n ensures !Taken(j) {
          KnownIsRefused(j);
        }
        if x !in pool {
          Outside(x, n);
        }
      }
    }

    // ---- spending from the chain ----

    /** Nothing that `tx` spends from is in the pool at any time, if all of it is on the chain. */
    lemma NoParents(tx: Tx, n: nat)
      requires Valid() && n <= |txs| && forall i :: 0 <= i < |tx.vin| ==> tx.vin[i].prevout.hash in m
      requires forall i :: 0 <= i < |tx.vin| ==> tx.vin[i].prevout.hash !in pool
      ensures forall i :: 0 <= i < |tx.vin| ==> tx.vin[i].prevout.hash !in At(n)
    {
      hide Welcome, Descends;
      forall i | 0 <= i < |tx.vin| ensures tx.vin[i].prevout.hash !in At(n) {
        forall l | 0 <= l < n ensures txs[l].txid != tx.vin[i].prevout.hash || !Taken(l) {
          if txs[l].txid in m {
            KnownIsRefused(l);
          }
        }
        Outside(tx.vin[i].prevout.hash, n);
      }
    }

    /** No rival of transaction `j` comes before it. */
    lemma {:induction false} NoRivals(j: nat, n: nat)
      requires Valid() && n <= j < |txs|
      requires forall x <- pool :: NoConflict(pool[x], txs[j])
      requires forall l :: 0 <= l < j ==> NoConflict(txs[l], txs[j])
      ensures forall x <- At(n) :: NoConflict(At(n)[x], txs[j])
      decreases n
    {
      hide Welcome, Descends, NoConflict;
      if n == 0 {
        Start();
      } else {
        NoRivals(j, n - 1);
        Step(n - 1);
      }
    }

    /** All that the chain and the pool at first have to say of transaction `j` is good. */
    ghost predicate Returnable(j: nat)
      requires j < |txs|
    {
      var tx := txs[j];
      && CheckTransaction(tx) && !tx.IsCoinBase() && tx.nLockTime <= 0x7FFF_FFFF
      && InputsGood(rules, m, tx, nHeight)
      && tx.txid !in pool && (forall x <- pool :: NoConflict(pool[x], tx))
      && (forall i :: 0 <= i < |tx.vin| ==> tx.vin[i].prevout.hash !in pool)
    }

    ghost predicate Unrivalled(j: nat)
      requires j < |txs|
    {
      Once(j) && forall l :: 0 <= l < |txs| && l != j ==> NoConflict(txs[l], txs[j])
    }

    lemma InputsOnChain(j: nat)
      requires j < |txs| && Returnable(j)
      ensures forall i :: 0 <= i < |txs[j].vin| ==> txs[j].vin[i].prevout.hash in m
    {
      hide CheckTransaction, CheckInputs, AllScriptsOk;
      forall i | 0 <= i < |txs[j].vin| ensures txs[j].vin[i].prevout.hash in m {
        assert Available(Live(m), txs[j].vin[i].prevout);
      }
    }

    lemma ReturnableIsTaken(j: nat)
      requires Valid() && j < |txs| && Returnable(j) && Unrivalled(j) && policy[j]
      ensures Taken(j)
    {
      hide CheckTransaction, CheckInputs, AllScriptsOk, NoConflict, Live, Ledger.HaveInputs, AfterTurns;
      var tx, all := txs[j], PoolContents(m, At(j));
      InputsOnChain(j);
      NoParents(tx, j);
      NoRivals(j, j);
      Outside(tx.txid, j);
      forall i | 0 <= i < |tx.vin| ensures var h := tx.vin[i].prevout.hash; h in all && h in m && all[h] == m[h] {
      }
      SameInputs(rules, all, m, tx, nHeight);
    }

    lemma {:induction false} Entries(content: Content, n: nat)
      requires Valid() && n <= |txs| && forall l :: 0 <= l < |txs| ==> content(txs[l].txid) == txs[l]
      ensures forall x <- At(n) :: x !in pool ==> At(n)[x] == content(x)
      decreases n
    {
      hide Welcome, Descends;
      if n == 0 {
        Start();
      } else {
        Entries(content, n - 1);
        Step(n - 1);
      }
    }

    /** As nothing that it spends from is in the pool, it descends only from those that it spends from. */
    lemma DescendsOnlyFromParents(content: Content, j: nat, l: nat)
      requires Valid() && j < l < |txs| && Returnable(j) && txs[j].txid in At(l)
      requires Recorded(Live(m), content) && forall l :: 0 <= l < |txs| ==> content(txs[l].txid) == txs[l]
      ensures Descends(At(l), rank, txs[j].txid, txs[l]) <==>
                exists i :: 0 <= i < |txs[j].vin| && txs[j].vin[i].prevout.hash == txs[l].txid
    {
      hide Welcome, NoConflict, CheckTransaction, CheckInputs, AllScriptsOk, AfterTurns;
      var x, now := txs[j].txid, At(l);
      InputsOnChain(j);
      NoParents(txs[j], l);
      Entries(content, l);
      Ids(l);
      assert now[x] == txs[j];
      forall p | p in now ensures !Spends(txs[j], now[p]) {
      }
      assert Descends(now, rank, x, txs[l]) <==> Spends(txs[j], txs[l]);
      if i :| 0 <= i < |txs[j].vin| && txs[j].vin[i].prevout.hash == txs[l].txid {
        var o := txs[j].vin[i].prevout;
        assert Available(Live(m), o) && RecordOf(Live(m)[o.hash], content(o.hash));
        assert IsOutput(o, txs[l]);
      }
    }

    lemma {:induction false} DescendantIsThere(now: map<TxId, Tx>, x: TxId, t: Tx)
      requires Descends(now, rank, x, t)
      ensures x in now
    {
    }

    /** A transaction whose inputs the chain has, and that nothing rivals, comes back exactly if none of those it spends
        from has its turn after it: the chain knows that one already, so it is refused, and all that spends it goes. */
    lemma ReturnsIff(content: Content, j: nat)
      requires Valid() && j < |txs| && Returnable(j) && Unrivalled(j) && policy[j]
      requires Recorded(Live(m), content) && forall l :: 0 <= l < |txs| ==> content(txs[l].txid) == txs[l]
      ensures txs[j].txid in At(|txs|) <==>
                forall l, i :: j < l < |txs| && 0 <= i < |txs[j].vin| ==> txs[j].vin[i].prevout.hash != txs[l].txid
    {
      hide Welcome, Descends, NoConflict, CheckTransaction, CheckInputs, AllScriptsOk, Live, AfterTurns, Recorded;
      ReturnableIsTaken(j);
      InputsOnChain(j);
      TurnDecides(j, |txs|);
      forall l | j < l < |txs| && txs[j].txid in At(l)
        ensures Descends(At(l), rank, txs[j].txid, txs[l]) <==>
                exists i :: 0 <= i < |txs[j].vin| && txs[j].vin[i].prevout.hash == txs[l].txid
      {
        DescendsOnlyFromParents(content, j, l);
      }
      forall l | j < l < |txs| && exists i :: 0 <= i < |txs[j].vin| && txs[j].vin[i].prevout.hash == txs[l].txid
        ensures !Taken(l)
      {
        KnownIsRefused(l);
      }
      if txs[j].txid !in At(|txs|) {
        var l :| j < l < |txs| && !Taken(l) && Descends(At(l), rank, txs[j].txid, txs[l]);
        DescendantIsThere(At(l), txs[j].txid, txs[l]);
      } else {
        forall l | j < l < |txs| ensures txs[j].txid in At(l) {
          if l > j {
            TurnDecides(j, l);
          }
        }
      }
    }

    // ---- parents after children ----

    /** A transaction that spends from one whose turn comes later does not come back, whatever else is the case: if the
        chain does not know that one, an input is missing; and if it does, that one is refused. */
    lemma ChildIsLost(j: nat, l: nat)
      requires Valid() && j < l < |txs| && Once(j) && Once(l) && Spends(txs[j], txs[l])
      requires txs[l].txid !in pool
      requires txs[j].txid in pool ==> pool[txs[j].txid] == txs[j]
      ensures txs[j].txid !in At(|txs|)
    {
      hide Descends, NoConflict, CheckTransaction, CheckInputs, AllScriptsOk, AfterTurns, Live;
      if txs[j].txid in At(|txs|) {
        TurnDecides(j, |txs|);
        TurnDecides(j, l);
        var n :| 0 <= n < |txs[j].vin| && IsOutput(txs[j].vin[n].prevout, txs[l]);
        var o := txs[j].vin[n].prevout;
        forall k | 0 <= k < j ensures txs[k].txid != txs[l].txid {
        }
        Outside(txs[l].txid, j);
        assert Available(Live(PoolContents(m, At(j))), o);
        assert o.hash in m by {
          Availed(PoolContents(m, At(j)), o);
        }
        KnownIsRefused(l);
        OwnEntry(j, l);
        SpenderDescends(At(l), txs[j].txid, txs[l]);
        assert false;
      }
    }

    lemma Availed(c: map<TxId, Coin>, o: OutPoint)
      requires Available(Live(c), o)
      ensures o.hash in c
    {
    }

    lemma {:induction false} OwnEntry(j: nat, n: nat)
      requires Valid() && j < n <= |txs| && Once(j) && txs[j].txid in At(n)
      ensures At(n)[txs[j].txid] == txs[j]
      decreases n
    {
      hide Welcome, Descends, AfterTurns;
      Step(n - 1);
      if n - 1 > j {
        OwnEntry(j, n - 1);
      }
    }

    lemma {:induction false} SpenderDescends(now: map<TxId, Tx>, x: TxId, t: Tx)
      requires x in now && Spends(now[x], t)
      ensures Descends(now, rank, x, t)
    {
    }
  }

  // ---- connected transactions ----

  /** A pool transaction that is not connected, nor in conflict with a connected one, and spends from nothing in the
      pool stays through the deletion; and nothing enters. */
  lemma {:induction false} StaysThroughConnected(pool: map<TxId, Tx>, rank: Rank, vDelete: seq<Tx>, x: TxId)
    requires forall p <- pool :: pool[p].txid == p
    requires x in pool && forall i :: 0 <= i < |pool[x].vin| ==> pool[x].vin[i].prevout.hash !in pool
    requires forall k :: 0 <= k < |vDelete| ==> x != vDelete[k].txid && NoConflict(pool[x], vDelete[k])
    ensures x in AfterAllConnected(pool, rank, vDelete)
  {
    hide NoConflict, FromRival;
    if vDelete != [] {
      var k := |vDelete| - 1;
      StaysThroughConnected(pool, rank, vDelete[..k], x);
      var before := AfterAllConnected(pool, rank, vDelete[..k]);
      ConnectedShrinks(pool, rank, vDelete[..k]);
      NotFromRival(before - {vDelete[k].txid}, rank, x, vDelete[k]);
    }
  }

  lemma NotFromRival(pool: map<TxId, Tx>, rank: Rank, x: TxId, tx: Tx)
    requires x in pool && NoConflict(pool[x], tx) && forall p <- pool :: pool[p].txid == p
    requires forall i :: 0 <= i < |pool[x].vin| ==> pool[x].vin[i].prevout.hash !in pool
    ensures !FromRival(pool, rank, x, tx)
  {
    hide NoConflict;
    forall p | p in pool ensures !Spends(pool[x], pool[p]) {
    }
    forall c | Rival(pool, c, tx) ensures x != c && !Descends(pool, rank, x, pool[c]) {
    }
  }

  lemma {:induction false} ConnectedShrinks(pool: map<TxId, Tx>, rank: Rank, vDelete: seq<Tx>)
    ensures forall x <- AfterAllConnected(pool, rank, vDelete) ::
              x in pool && AfterAllConnected(pool, rank, vDelete)[x] == pool[x]
  {
    hide FromRival;
    if vDelete != [] {
      ConnectedShrinks(pool, rank, vDelete[..|vDelete| - 1]);
    }
  }

  // ---- the whole ----

  /** After the turns, and the deletion of what was connected. */
  ghost function PoolAfter(t: Turns, vDelete: seq<Tx>): map<TxId, Tx>
    requires t.Valid()
  {
    AfterAllConnected(t.At(|t.txs|), t.rank, vDelete)
  }

  lemma InPoolAfterIff(t: Turns, content: Content, vDelete: seq<Tx>, j: nat)
    requires t.Valid() && j < |t.txs| && t.Returnable(j) && t.Unrivalled(j) && t.policy[j]
    requires Recorded(Live(t.m), content) && forall l :: 0 <= l < |t.txs| ==> content(t.txs[l].txid) == t.txs[l]
    requires forall k :: 0 <= k < |vDelete| ==> t.txs[j].txid != vDelete[k].txid && NoConflict(t.txs[j], vDelete[k])
    ensures t.txs[j].txid in PoolAfter(t, vDelete) <==>
              forall l, i :: j < l < |t.txs| && 0 <= i < |t.txs[j].vin| ==>
                               t.txs[j].vin[i].prevout.hash != t.txs[l].txid
  {
    hide Turns.Returnable, Recorded, Live, NoConflict, Turns.At, AfterAllConnected;
    var x, now := t.txs[j].txid, t.At(|t.txs|);
    t.ReturnsIff(content, j);
    ConnectedShrinks(now, t.rank, vDelete);
    if x in now {
      t.Ids(|t.txs|);
      t.OwnEntry(j, |t.txs|);
      t.InputsOnChain(j);
      ParentsOutside(t, j);
      t.NoParents(t.txs[j], |t.txs|);
      StaysThroughConnected(now, t.rank, vDelete, x);
    }
  }

  lemma ParentsOutside(t: Turns, j: nat)
    requires j < |t.txs| && t.Returnable(j)
    ensures forall i :: 0 <= i < |t.txs[j].vin| ==> t.txs[j].vin[i].prevout.hash !in t.pool
  {
  }
}

/** Which transactions of the old branch are in the pool after a switch of the best chain, told by the blocks they stand
    in. */
module Comeback {
  import opened Options
  import opened Coins
  import opened Ledger
  import opened BlockTree
  import opened Availability
  import opened Maturity
  import opened BlockLaw
  import opened ChainLaw
  import opened PoolSwitch
  import opened PoolReturn
  import opened CoinsView
  import MemPool

  // ---- the order of turns ----

  /** Where in its block the transaction stands that comes back as number `j`. */
  ghost function PlaceIn(rules: Rules, nHeight: int, txs: seq<Tx>, j: nat): (k: nat)
    requires j < |BackOf(rules, nHeight, txs)|
    ensures k < |txs| && BackOf(rules, nHeight, txs)[j] == txs[k]
    ensures !Minting(txs[k]) && nHeight > rules.scriptsFrom
  {
    var last := |txs| - 1;
    if j < |BackOf(rules, nHeight, txs[..last])| then PlaceIn(rules, nHeight, txs[..last], j) else last
  }

  lemma {:induction false} PlacesInRise(rules: Rules, nHeight: int, txs: seq<Tx>, j: nat, l: nat)
    requires j < l < |BackOf(rules, nHeight, txs)|
    ensures PlaceIn(rules, nHeight, txs, j) < PlaceIn(rules, nHeight, txs, l)
  {
    var last := |txs| - 1;
    if l < |BackOf(rules, nHeight, txs[..last])| {
      PlacesInRise(rules, nHeight, txs[..last], j, l);
    }
  }

  lemma {:induction false} HasPlaceIn(rules: Rules, nHeight: int, txs: seq<Tx>, k: nat) returns (j: nat)
    requires k < |txs| && !Minting(txs[k]) && nHeight > rules.scriptsFrom
    ensures j < |BackOf(rules, nHeight, txs)| && PlaceIn(rules, nHeight, txs, j) == k
    decreases |txs|
  {
    var last := |txs| - 1;
    if k == last {
      j := |BackOf(rules, nHeight, txs[..last])|;
    } else {
      j := HasPlaceIn(rules, nHeight, txs[..last], k);
    }
  }

  /** The disconnected block, counted from the tip, and the place there. */
  ghost function Place(rules: Rules, t: Tree, blocks: map<BlockHash, Block>, path: seq<BlockHash>, j: nat):
    (r: (nat, nat))
    requires forall i :: 0 <= i < |path| ==> path[i] in blocks && path[i] in t
    requires j < |AllBack(rules, t, blocks, path)|
    ensures r.0 < |path| && r.1 < |blocks[path[r.0]].vtx|
    ensures AllBack(rules, t, blocks, path)[j] == blocks[path[r.0]].vtx[r.1]
    ensures !Minting(blocks[path[r.0]].vtx[r.1]) && t[path[r.0]].nHeight > rules.scriptsFrom
  {
    var last := |path| - 1;
    var init := AllBack(rules, t, blocks, path[..last]);
    if j < |init| then Place(rules, t, blocks, path[..last], j)
    else (last, PlaceIn(rules, t[path[last]].nHeight, blocks[path[last]].vtx, j - |init|))
  }

  /** Higher blocks have their turns first, and each in its own order. */
  lemma {:induction false} PlacesRise(rules: Rules, t: Tree, blocks: map<BlockHash, Block>, path: seq<BlockHash>,
                                      j: nat, l: nat)
    requires forall i :: 0 <= i < |path| ==> path[i] in blocks && path[i] in t
    requires j < l < |AllBack(rules, t, blocks, path)|
    ensures var a, b := Place(rules, t, blocks, path, j), Place(rules, t, blocks, path, l);
            a.0 < b.0 || (a.0 == b.0 && a.1 < b.1)
  {
    hide BackOf, PlaceIn;
    var last := |path| - 1;
    var init := AllBack(rules, t, blocks, path[..last]);
    if l < |init| {
      PlacesRise(rules, t, blocks, path[..last], j, l);
    } else if j >= |init| {
      PlacesInRise(rules, t[path[last]].nHeight, blocks[path[last]].vtx, j - |init|, l - |init|);
    }
  }

  lemma {:induction false} HasPlace(rules: Rules, t: Tree, blocks: map<BlockHash, Block>, path: seq<BlockHash>, i: nat,
                                    k: nat) returns (j: nat)
    requires forall i :: 0 <= i < |path| ==> path[i] in blocks && path[i] in t
    requires i < |path| && k < |blocks[path[i]].vtx| && !Minting(blocks[path[i]].vtx[k])
    requires t[path[i]].nHeight > rules.scriptsFrom
    ensures j < |AllBack(rules, t, blocks, path)| && Place(rules, t, blocks, path, j) == (i, k)
    decreases |path|
  {
    hide BackOf, PlaceIn;
    var last := |path| - 1;
    var init := AllBack(rules, t, blocks, path[..last]);
    if i == last {
      j := HasPlaceIn(rules, t[path[last]].nHeight, blocks[path[last]].vtx, k);
      j := j + |init|;
    } else {
      j := HasPlace(rules, t, blocks, path[..last], i, k);
    }
  }

  lemma {:induction false} PathFalls(t: Tree, genesis: BlockHash, b: Ptr, a: Ptr, i: nat)
    requires TreeOk(t, genesis) && Known(t, b) && IsAncestor(t, genesis, a, b) && i < |Path(t, genesis, b, a)|
    ensures Path(t, genesis, b, a)[i] in t && t[Path(t, genesis, b, a)[i]].nHeight == Height(t, b) - i
    decreases Height(t, b) + 1
  {
    if i > 0 {
      PathFalls(t, genesis, Parent(t, genesis, b.value), a, i - 1);
    }
  }

  // ---- who comes back ----

  /** A switch from one branch to another. */
  datatype Switch = Switch(rules: Rules, t: Tree, genesis: BlockHash, blocks: map<BlockHash, Block>, best: Ptr,
                           pnew: Ptr) {
    ghost predicate Valid() {
      TreeOk(t, genesis) && Known(t, best) && Known(t, pnew) && t.Keys <= blocks.Keys
    }

    /** The last block that the two branches have in common. */
    ghost function Fork(): (f: Ptr)
      requires Valid()
      ensures Known(t, f) && IsFork(t, genesis, best, f, pnew)
    {
      GenesisBelow(t, genesis, pnew);
      var f := LastIn(t, genesis, best, pnew);
      LastIsFork(t, genesis, best, pnew);
      f
    }

    /** The transaction is no coinbase, and its block, above the last checkpoint, is disconnected. */
    ghost predicate Moves(b: BlockHash, k: nat)
      requires Valid()
    {
      && b in t && OffBranch(t, genesis, best, pnew, b) && t[b].nHeight > rules.scriptsFrom
      && k < |blocks[b].vtx| && !Minting(blocks[b].vtx[k])
    }

    /** Neither in the pool, nor elsewhere among those that move, nor in the blocks that are connected does it stand
        again or is anything that spends what it spends; and nothing that it spends from is in the pool. */
    ghost predicate Unhindered(pool: map<TxId, Tx>, b: BlockHash, k: nat)
      requires Valid() && Moves(b, k)
    {
      var tx := blocks[b].vtx[k];
      && tx.nLockTime <= 0x7FFF_FFFF
      && tx.txid !in pool && (forall x <- pool :: MemPool.NoConflict(pool[x], tx))
      && (forall i :: 0 <= i < |tx.vin| ==> tx.vin[i].prevout.hash !in pool)
      && (forall c, l: nat :: Moves(c, l) && (c, l) != (b, k) ==> Apart(blocks[c].vtx[l], tx))
      && (forall c, l: nat :: c in t && OffBranch(t, genesis, pnew, best, c) && l < |blocks[c].vtx| ==>
                                Apart(tx, blocks[c].vtx[l]))
    }

    /** A transaction that it spends from stands in a lower block and moves too. */
    ghost predicate ParentBelow(b: BlockHash, k: nat)
      requires Valid() && Moves(b, k)
    {
      exists c, l: nat, i ::
        Moves(c, l) && t[c].nHeight < t[b].nHeight && SpendsFrom(blocks[b].vtx[k], i, blocks[c].vtx[l])
    }
  }

  /** The last block of the branch that ends in `p` which is also one of the other. */
  ghost function LastIn(t: Tree, genesis: BlockHash, p: Ptr, other: Ptr): Ptr
    requires TreeOk(t, genesis) && Known(t, p) && Known(t, other) && IsAncestor(t, genesis, None, other)
    decreases Height(t, p) + 1
  {
    if p.None? || IsAncestor(t, genesis, p, other) then p else LastIn(t, genesis, Parent(t, genesis, p.value), other)
  }

  lemma {:induction false} LastIsFork(t: Tree, genesis: BlockHash, p: Ptr, other: Ptr)
    requires TreeOk(t, genesis) && Known(t, p) && Known(t, other) && IsAncestor(t, genesis, None, other)
    ensures Known(t, LastIn(t, genesis, p, other)) && IsFork(t, genesis, p, LastIn(t, genesis, p, other), other)
    decreases Height(t, p) + 1
  {
    if p.Some? && !IsAncestor(t, genesis, p, other) {
      var prev := Parent(t, genesis, p.value);
      LastIsFork(t, genesis, prev, other);
      AncestorStep(t, genesis, p.value);
      forall a | Common(t, genesis, a, p, other) ensures Common(t, genesis, a, prev, other) {
      }
    }
  }

  /** Two branches have just one last block in common. */
  lemma OneFork(s: Switch, f: Ptr)
    requires s.Valid() && Known(s.t, f) && IsFork(s.t, s.genesis, s.best, f, s.pnew)
    ensures f == s.Fork()
  {
    hide LastIn;
    var g := s.Fork();
    assert Common(s.t, s.genesis, f, s.best, s.pnew) && Common(s.t, s.genesis, g, s.best, s.pnew);
    AncestorHeight(s.t, s.genesis, f, g);
    AncestorHeight(s.t, s.genesis, g, f);
  }

  predicate Apart(x: Tx, y: Tx) {
    x.txid != y.txid && MemPool.NoConflict(x, y)
  }

  predicate SpendsFrom(x: Tx, i: int, p: Tx) {
    0 <= i < |x.vin| && x.vin[i].prevout.hash == p.txid
  }

  /** Within a block, what is spent stands before what spends it. */
  lemma ParentFirst(s: Switch, content: Content, b: BlockHash, k: nat, l: nat, i: nat)
    requires s.Valid() && s.Moves(b, k) && b != s.genesis
    requires forall c <- s.blocks :: AllOf(s.blocks[c].vtx, content)
    requires Replay(s.rules, s.t, s.genesis, s.blocks, s.best).Some?
    requires l < |s.blocks[b].vtx| && SpendsFrom(s.blocks[b].vtx[k], i, s.blocks[b].vtx[l])
    ensures l < k
  {
    hide AllOf, Recorded, Sound, InputsLaw, IsAncestor, Replay, AllPass;
    LawfulOnBranch(s.rules, s.t, s.genesis, s.blocks, content, s.best, b);
    var u, txs := Replay(s.rules, s.t, s.genesis, s.blocks, Parent(s.t, s.genesis, b)).value, s.blocks[b].vtx;
    assert PlaceLaw(u, content, txs, k, s.t[b].nHeight);
    assert Spendable(u, txs, k, txs[k].vin[i].prevout);
    assert txs[l].txid !in u;
    var j :| 0 <= j < k && MadeBy(txs[j], txs[k].vin[i].prevout);
    assert j == l;
  }

  lemma MoverIsChecked(s: Switch, content: Content, b: BlockHash, k: nat)
    requires s.Valid() && s.Moves(b, k) && b != s.genesis
    requires forall c <- s.blocks :: AllOf(s.blocks[c].vtx, content)
    requires Replay(s.rules, s.t, s.genesis, s.blocks, s.best).Some?
    ensures CheckTransaction(s.blocks[b].vtx[k])
  {
    hide AllOf, Recorded, Sound, IsAncestor, Replay, AllPass, PlaceLaw;
    LawfulOnBranch(s.rules, s.t, s.genesis, s.blocks, content, s.best, b);
    CheckTransactionIff(s.blocks[b].vtx[k]);
  }

  /** Some other transaction that moves; if its turn is the later one, its block is lower, or it stands further down. */
  ghost predicate Elsewhere(s: Switch, b: BlockHash, k: nat, tx: Tx, later: bool)
    requires s.Valid() && s.Moves(b, k)
  {
    exists c, n: nat ::
      && s.Moves(c, n) && (c, n) != (b, k) && tx == s.blocks[c].vtx[n]
      && (later ==> s.t[c].nHeight < s.t[b].nHeight || (c == b && n > k))
  }

  /** The transactions that get turns, in their order. */
  ghost function BackTxs(s: Switch, fork: Ptr): seq<Tx>
    requires s.Valid() && IsAncestor(s.t, s.genesis, fork, s.best)
  {
    PathFacts(s.t, s.genesis, s.best, fork);
    AllBack(s.rules, s.t, s.blocks, Path(s.t, s.genesis, s.best, fork))
  }

  ghost predicate PlacedAt(s: Switch, fork: Ptr, j: nat, b: BlockHash, k: nat)
    requires s.Valid() && IsAncestor(s.t, s.genesis, fork, s.best) && j < |BackTxs(s, fork)|
  {
    PathFacts(s.t, s.genesis, s.best, fork);
    var path := Path(s.t, s.genesis, s.best, fork);
    var (i, n) := Place(s.rules, s.t, s.blocks, path, j);
    path[i] == b && n == k
  }

  lemma PlaceFacts(s: Switch, fork: Ptr, j: nat) returns (b: BlockHash, k: nat)
    requires s.Valid() && Known(s.t, fork) && IsFork(s.t, s.genesis, s.best, fork, s.pnew)
    requires j < |BackTxs(s, fork)|
    ensures s.Moves(b, k) && BackTxs(s, fork)[j] == s.blocks[b].vtx[k] && PlacedAt(s, fork, j, b, k)
  {
    hide IsAncestor, Path, AllBack, OffBranch, Place;
    PathFacts(s.t, s.genesis, s.best, fork);
    var path := Path(s.t, s.genesis, s.best, fork);
    var (i, n) := Place(s.rules, s.t, s.blocks, path, j);
    OnPath(s.t, s.genesis, s.best, fork, s.pnew, path[i]);
    b, k := path[i], n;
  }

  lemma PlaceThere(s: Switch, fork: Ptr, b: BlockHash, k: nat) returns (j: nat)
    requires s.Valid() && Known(s.t, fork) && IsFork(s.t, s.genesis, s.best, fork, s.pnew) && s.Moves(b, k)
    ensures j < |BackTxs(s, fork)| && BackTxs(s, fork)[j] == s.blocks[b].vtx[k] && PlacedAt(s, fork, j, b, k)
  {
    hide IsAncestor, Path, AllBack, OffBranch, Place;
    PathFacts(s.t, s.genesis, s.best, fork);
    var path := Path(s.t, s.genesis, s.best, fork);
    OnPath(s.t, s.genesis, s.best, fork, s.pnew, b);
    var i :| 0 <= i < |path| && path[i] == b;
    j := HasPlace(s.rules, s.t, s.blocks, path, i, k);
  }

  /** Turns go from the tip downwards, and through each block from its beginning. */
  lemma {:induction false} TurnsGoDown(s: Switch, fork: Ptr, j: nat, b: BlockHash, k: nat, l: nat, c: BlockHash, n: nat)
    requires s.Valid() && IsAncestor(s.t, s.genesis, fork, s.best) && b in s.t && c in s.t
    requires j < l < |BackTxs(s, fork)| && PlacedAt(s, fork, j, b, k) && PlacedAt(s, fork, l, c, n)
    ensures s.t[c].nHeight < s.t[b].nHeight || (c == b && n > k)
  {
    hide IsAncestor, Path, AllBack, Place;
    PathFacts(s.t, s.genesis, s.best, fork);
    var path := Path(s.t, s.genesis, s.best, fork);
    var x, y := Place(s.rules, s.t, s.blocks, path, j), Place(s.rules, s.t, s.blocks, path, l);
    PlacesRise(s.rules, s.t, s.blocks, path, j, l);
    PathFalls(s.t, s.genesis, s.best, fork, x.0);
    PathFalls(s.t, s.genesis, s.best, fork, y.0);
  }

  /** The transaction's turn, and what is before and after it. */
  lemma TurnOf(s: Switch, fork: Ptr, b: BlockHash, k: nat) returns (j: nat)
    requires s.Valid() && Known(s.t, fork) && IsFork(s.t, s.genesis, s.best, fork, s.pnew) && s.Moves(b, k)
    ensures j < |BackTxs(s, fork)| && BackTxs(s, fork)[j] == s.blocks[b].vtx[k]
    ensures forall l :: 0 <= l < |BackTxs(s, fork)| && l != j ==> Elsewhere(s, b, k, BackTxs(s, fork)[l], l > j)
    ensures forall c, n: nat :: s.Moves(c, n) && s.t[c].nHeight < s.t[b].nHeight ==>
                                  exists l :: j < l < |BackTxs(s, fork)| && BackTxs(s, fork)[l] == s.blocks[c].vtx[n]
  {
    hide IsAncestor, Path, AllBack, OffBranch, Place, PlacedAt, BackTxs;
    var txs := BackTxs(s, fork);
    j := PlaceThere(s, fork, b, k);
    forall l | 0 <= l < |txs| && l != j ensures Elsewhere(s, b, k, txs[l], l > j) {
      var c, n := PlaceFacts(s, fork, l);
      if l < j {
        TurnsGoDown(s, fork, l, c, n, j, b, k);
      } else {
        TurnsGoDown(s, fork, j, b, k, l, c, n);
      }
    }
    forall c, n: nat | s.Moves(c, n) && s.t[c].nHeight < s.t[b].nHeight
      ensures exists l :: j < l < |txs| && txs[l] == s.blocks[c].vtx[n]
    {
      var l := PlaceThere(s, fork, c, n);
      if l < j {
        TurnsGoDown(s, fork, l, c, n, j, b, k);
      } else if l == j {
        SamePlace(s, fork, j, b, k, c, n);
      }
    }
  }

  lemma {:induction false} SamePlace(s: Switch, fork: Ptr, j: nat, b: BlockHash, k: nat, c: BlockHash, n: nat)
    requires s.Valid() && IsAncestor(s.t, s.genesis, fork, s.best) && j < |BackTxs(s, fork)|
    requires PlacedAt(s, fork, j, b, k) && PlacedAt(s, fork, j, c, n)
    ensures b == c && k == n
  {
  }

  /** The transactions that a switch connects, in their order. */
  ghost function ConnectedTxs(s: Switch, fork: Ptr): seq<Tx>
    requires s.Valid() && IsAncestor(s.t, s.genesis, fork, s.pnew)
  {
    PathFacts(s.t, s.genesis, s.pnew, fork);
    var path := Path(s.t, s.genesis, s.pnew, fork);
    ReversedKnown(s.blocks, path);
    TxsOf(s.blocks, Reversed(path))
  }

  lemma OfConnected(s: Switch, fork: Ptr, j: nat) returns (c: BlockHash, l: nat)
    requires s.Valid() && Known(s.t, fork) && IsFork(s.t, s.genesis, s.best, fork, s.pnew)
    requires j < |ConnectedTxs(s, fork)|
    ensures c in s.t && OffBranch(s.t, s.genesis, s.pnew, s.best, c)
    ensures l < |s.blocks[c].vtx| && ConnectedTxs(s, fork)[j] == s.blocks[c].vtx[l]
  {
    hide IsAncestor, Path, TxsOf, OffBranch;
    PathFacts(s.t, s.genesis, s.pnew, fork);
    var path := Path(s.t, s.genesis, s.pnew, fork);
    ReversedKnown(s.blocks, path);
    var i, n := OfTxsOf(s.blocks, Reversed(path), j);
    assert Reversed(path)[i] == path[|path| - 1 - i];
    c, l := path[|path| - 1 - i], n;
    OnPath(s.t, s.genesis, s.best, fork, s.pnew, c);
  }

  /** Transactions that hold to the same hashes as blocks and views do. */
  ghost predicate OneWorld(s: Switch, content: Content, m: map<TxId, Coin>, pool: map<TxId, Tx>) {
    && (forall c <- s.blocks :: AllOf(s.blocks[c].vtx, content)) && Recorded(Live(m), content)
    && forall x <- pool :: pool[x].txid == x
  }

  lemma HinderedByNone(s: Switch, fork: Ptr, turns: Turns, b: BlockHash, k: nat, j: nat)
    requires s.Valid() && Known(s.t, fork) && IsFork(s.t, s.genesis, s.best, fork, s.pnew) && s.Moves(b, k)
    requires turns.txs == BackTxs(s, fork) && s.Unhindered(turns.pool, b, k)
    requires j < |turns.txs| && turns.txs[j] == s.blocks[b].vtx[k]
    requires forall l :: 0 <= l < |turns.txs| && l != j ==> Elsewhere(s, b, k, turns.txs[l], l > j)
    ensures turns.Unrivalled(j)
    ensures forall l :: 0 <= l < |ConnectedTxs(s, fork)| ==> Apart(turns.txs[j], ConnectedTxs(s, fork)[l])
  {
    hide IsAncestor, Path, BackTxs, ConnectedTxs, OffBranch, MemPool.NoConflict;
    var tx := turns.txs[j];
    forall l | 0 <= l < |turns.txs| && l != j ensures Apart(turns.txs[l], tx) {
      assert Elsewhere(s, b, k, turns.txs[l], l > j);
    }
    forall l | 0 <= l < |ConnectedTxs(s, fork)| ensures Apart(tx, ConnectedTxs(s, fork)[l]) {
      var c, n := OfConnected(s, fork, l);
    }
  }

  lemma ParentIsBelow(s: Switch, fork: Ptr, content: Content, b: BlockHash, k: nat, j: nat, l: nat, i: int)
    requires s.Valid() && Known(s.t, fork) && IsFork(s.t, s.genesis, s.best, fork, s.pnew) && s.Moves(b, k)
    requires b != s.genesis && Replay(s.rules, s.t, s.genesis, s.blocks, s.best).Some?
    requires forall c <- s.blocks :: AllOf(s.blocks[c].vtx, content)
    requires j < l < |BackTxs(s, fork)| && Elsewhere(s, b, k, BackTxs(s, fork)[l], true)
    requires SpendsFrom(s.blocks[b].vtx[k], i, BackTxs(s, fork)[l])
    ensures s.ParentBelow(b, k)
  {
    hide IsAncestor, Path, BackTxs, OffBranch, Replay, AllOf;
    var c, n: nat :| && s.Moves(c, n) && (c, n) != (b, k) && BackTxs(s, fork)[l] == s.blocks[c].vtx[n]
                     && (s.t[c].nHeight < s.t[b].nHeight || (c == b && n > k));
    if c == b && n > k {
      ParentFirst(s, content, b, k, n, i);
    }
  }

  /** What comes back if policy lets it: a transaction of a disconnected block whose inputs are good on the new branch,
      and that nothing hinders, is in the pool afterwards exactly if none that it spends from moves from a lower
      block. */
  lemma ComesBackIff(s: Switch, fork: Ptr, content: Content, turns: Turns, b: BlockHash, k: nat)
    requires s.Valid() && s.pnew.Some? && Known(s.t, fork) && IsFork(s.t, s.genesis, s.best, fork, s.pnew)
    requires Replay(s.rules, s.t, s.genesis, s.blocks, s.best).Some?
    requires OneWorld(s, content, turns.m, turns.pool) && turns.txs == BackTxs(s, fork) && turns.rules == s.rules
    requires turns.Valid() && forall j :: 0 <= j < |turns.policy| ==> turns.policy[j]
    requires s.Moves(b, k) && s.Unhindered(turns.pool, b, k)
    requires MemPool.InputsGood(s.rules, turns.m, s.blocks[b].vtx[k], turns.nHeight)
    ensures s.blocks[b].vtx[k].txid in PoolAfter(turns, ConnectedTxs(s, fork)) <==> !s.ParentBelow(b, k)
  {
    hide IsAncestor, Path, BackTxs, ConnectedTxs, OffBranch, Replay, Recorded, AllOf, MemPool.NoConflict,
         MemPool.InputsGood, CheckTransaction, PoolAfter, Switch.Unhindered, Turns.Unrivalled;
    var tx := s.blocks[b].vtx[k];
    NotGenesis(s, b);
    MoverIsChecked(s, content, b, k);
    var j := TurnOf(s, fork, b, k);
    HinderedByNone(s, fork, turns, b, k, j);
    IsReturnable(s, turns, b, k, j);
    ContentOfTurns(s, fork, content);
    InPoolAfterIff(turns, content, ConnectedTxs(s, fork), j);
    if s.ParentBelow(b, k) {
      var c, n: nat, i :| s.Moves(c, n) && s.t[c].nHeight < s.t[b].nHeight && SpendsFrom(tx, i, s.blocks[c].vtx[n]);
      var l :| j < l < |turns.txs| && turns.txs[l] == s.blocks[c].vtx[n];
      assert tx.vin[i].prevout.hash == turns.txs[l].txid;
    } else {
      forall l, i | j < l < |turns.txs| && 0 <= i < |tx.vin| ensures tx.vin[i].prevout.hash != turns.txs[l].txid {
        if tx.vin[i].prevout.hash == turns.txs[l].txid {
          ParentIsBelow(s, fork, content, b, k, j, l, i);
        }
      }
    }
  }

  /** After a switch the pool is what the turns and the connected blocks leave of it. */
  ghost predicate Turned(s: Switch, turns: Turns, after: map<TxId, Tx>)
    requires s.Valid()
  {
    && turns.Valid() && turns.rules == s.rules && turns.txs == BackTxs(s, s.Fork())
    && after == PoolAfter(turns, ConnectedTxs(s, s.Fork()))
  }

  ghost predicate ReturnsIff(s: Switch, turns: Turns, after: map<TxId, Tx>)
    requires s.Valid()
  {
    forall b, k: nat :: s.Moves(b, k) && s.Unhindered(turns.pool, b, k)
                        && MemPool.InputsGood(s.rules, turns.m, s.blocks[b].vtx[k], turns.nHeight) ==>
                          (s.blocks[b].vtx[k].txid in after <==> !s.ParentBelow(b, k))
  }

  /** The same for all of them. */
  lemma AllComeBackIff(s: Switch, content: Content, turns: Turns, after: map<TxId, Tx>)
    requires s.Valid() && s.pnew.Some? && Replay(s.rules, s.t, s.genesis, s.blocks, s.best).Some?
    requires OneWorld(s, content, turns.m, turns.pool) && Turned(s, turns, after)
    requires forall j :: 0 <= j < |turns.policy| ==> turns.policy[j]
    ensures ReturnsIff(s, turns, after)
  {
    hide IsAncestor, Path, BackTxs, ConnectedTxs, Replay, MemPool.InputsGood, PoolAfter, Switch.Unhindered,
         OneWorld, Switch.ParentBelow;
    forall b, k: nat | s.Moves(b, k) && s.Unhindered(turns.pool, b, k)
      && MemPool.InputsGood(s.rules, turns.m, s.blocks[b].vtx[k], turns.nHeight)
      ensures s.blocks[b].vtx[k].txid in after <==> !s.ParentBelow(b, k)
    {
      ComesBackIff(s, s.Fork(), content, turns, b, k);
    }
  }

  predicate Lenient(policy: seq<bool>) {
    forall j :: 0 <= j < |policy| ==> policy[j]
  }

  /** The pool after a switch is what the turns and the connected blocks leave of it. Where policy refuses nothing, a
      transaction of a disconnected block that nothing hinders and whose inputs are good on the new branch is then in it
      exactly if none that it spends from moves from a lower block. */
  ghost predicate TurnsThen(s: Switch, turns: Turns, after: map<TxId, Tx>)
    requires s.Valid()
  {
    Turned(s, turns, after) && (Lenient(turns.policy) ==> ReturnsIff(s, turns, after))
  }

  /** If the tip has been flushed, the chain knows just what has unspent outputs; if not, it knows all disconnected
      transactions yet, and none comes back. */
  ghost predicate PoolThen(s: Switch, turns: Turns, flushed: bool, after: map<TxId, Tx>)
    requires s.Valid()
  {
    TurnsThen(s, turns, after) && if flushed then AllUnspent(turns.m) else after.Keys <= turns.pool.Keys
  }

  lemma {:induction false} PoolAfterIs(turns: Turns, vDelete: seq<Tx>)
    requires turns.Valid()
    ensures PoolAfter(turns, vDelete)
         == MemPool.AfterAllConnected(MemPool.AfterTurns(turns.rules, turns.m, turns.pool, turns.rank, turns.txs,
                                                         turns.nHeight, turns.policy), turns.rank, vDelete)
  {
    assert turns.txs[..|turns.txs|] == turns.txs && turns.policy[..|turns.txs|] == turns.policy;
  }

  /** If the coin view has an entry for every disconnected transaction, none of them comes back. */
  lemma NoneComesBack(s: Switch, turns: Turns, after: map<TxId, Tx>)
    requires s.Valid() && TurnsThen(s, turns, after) && EntriesBehind(s, turns.m)
    ensures after.Keys <= turns.pool.Keys
  {
    hide IsAncestor, OffBranch, BackTxs, ConnectedTxs, Turns.At, MemPool.AfterAllConnected, ReturnsIff;
    forall j | 0 <= j < |turns.txs| ensures turns.txs[j].txid in turns.m {
      var b, k := PlaceFacts(s, s.Fork(), j);
    }
    turns.NoneBack(|turns.txs|);
    ConnectedShrinks(turns.At(|turns.txs|), turns.rank, ConnectedTxs(s, s.Fork()));
  }

  /** There is an entry for each transaction of these blocks. */
  ghost predicate HasEntries(m: map<TxId, Coin>, blocks: map<BlockHash, Block>, path: seq<BlockHash>) {
    forall i :: 0 <= i < |path| && path[i] in blocks ==> HasEntriesOf(m, blocks[path[i]].vtx)
  }

  ghost predicate HasEntriesOf(m: map<TxId, Coin>, txs: seq<Tx>) {
    forall k :: 0 <= k < |txs| ==> txs[k].txid in m
  }

  lemma StillHasEntries(before: map<TxId, Coin>, after: map<TxId, Coin>, blocks: map<BlockHash, Block>,
                        path: seq<BlockHash>)
    requires HasEntries(before, blocks, path) && before.Keys <= after.Keys
    ensures HasEntries(after, blocks, path)
  {
    forall i | 0 <= i < |path| && path[i] in blocks ensures HasEntriesOf(after, blocks[path[i]].vtx) {
      assert HasEntriesOf(before, blocks[path[i]].vtx);
    }
  }

  lemma OneMoreHasEntries(before: map<TxId, Coin>, after: map<TxId, Coin>, blocks: map<BlockHash, Block>,
                          path: seq<BlockHash>, i: nat)
    requires i < |path| && path[i] in blocks && HasEntries(before, blocks, path[..i]) && before.Keys <= after.Keys
    requires HasEntriesOf(after, blocks[path[i]].vtx)
    ensures HasEntries(after, blocks, path[..i + 1])
  {
    hide HasEntriesOf;
    StillHasEntries(before, after, blocks, path[..i]);
    assert path[..i + 1] == path[..i] + [path[i]];
  }

  lemma {:induction false} EntriesOff(s: Switch, fork: Ptr, m: map<TxId, Coin>, path: seq<BlockHash>)
    requires s.Valid() && Known(s.t, fork) && IsFork(s.t, s.genesis, s.best, fork, s.pnew)
    requires path == Path(s.t, s.genesis, s.best, fork) && HasEntries(m, s.blocks, path)
    ensures EntriesBehind(s, m)
  {
    hide IsAncestor, Path, OffBranch;
    forall b, k | b in s.t && OffBranch(s.t, s.genesis, s.best, s.pnew, b) && 0 <= k < |s.blocks[b].vtx|
      ensures s.blocks[b].vtx[k].txid in m
    {
      OnPath(s.t, s.genesis, s.best, fork, s.pnew, b);
      assert HasEntriesOf(m, s.blocks[b].vtx);
    }
  }

  /** There is an entry for every disconnected transaction. */
  ghost predicate EntriesBehind(s: Switch, m: map<TxId, Coin>)
    requires s.Valid()
  {
    forall b, k :: b in s.t && OffBranch(s.t, s.genesis, s.best, s.pnew, b) && 0 <= k < |s.blocks[b].vtx| ==>
                     s.blocks[b].vtx[k].txid in m
  }

  lemma NotGenesis(s: Switch, b: BlockHash)
    requires s.Valid() && s.pnew.Some? && OffBranch(s.t, s.genesis, s.best, s.pnew, b)
    ensures b != s.genesis
  {
    GenesisBelow(s.t, s.genesis, s.pnew);
  }

  lemma IsReturnable(s: Switch, turns: Turns, b: BlockHash, k: nat, j: nat)
    requires s.Valid() && s.Moves(b, k) && s.Unhindered(turns.pool, b, k) && turns.rules == s.rules
    requires j < |turns.txs| && turns.txs[j] == s.blocks[b].vtx[k]
    requires CheckTransaction(turns.txs[j]) && !turns.txs[j].IsCoinBase()
    requires MemPool.InputsGood(s.rules, turns.m, turns.txs[j], turns.nHeight)
    ensures turns.Returnable(j)
  {
    hide IsAncestor, OffBranch, MemPool.NoConflict, MemPool.InputsGood, CheckTransaction;
  }

  lemma ContentOfTurns(s: Switch, fork: Ptr, content: Content)
    requires s.Valid() && Known(s.t, fork) && IsFork(s.t, s.genesis, s.best, fork, s.pnew)
    requires forall c <- s.blocks :: AllOf(s.blocks[c].vtx, content)
    ensures var txs := BackTxs(s, fork); forall l :: 0 <= l < |txs| ==> content(txs[l].txid) == txs[l]
  {
    hide IsAncestor, OffBranch, BackTxs;
    forall l | 0 <= l < |BackTxs(s, fork)| ensures content(BackTxs(s, fork)[l].txid) == BackTxs(s, fork)[l] {
      var c, n := PlaceFacts(s, fork, l);
    }
  }

  lemma {:induction false} StandsOnce(s: Switch, fork: Ptr, b: BlockHash, k: nat, j: nat)
    requires s.Valid() && IsAncestor(s.t, s.genesis, fork, s.best) && s.Moves(b, k) && j < |BackTxs(s, fork)|
    requires BackTxs(s, fork)[j] == s.blocks[b].vtx[k]
    requires forall l :: 0 <= l < |BackTxs(s, fork)| && l != j ==> Elsewhere(s, b, k, BackTxs(s, fork)[l], l > j)
    requires forall x: BlockHash, l: nat :: s.Moves(x, l) && (x, l) != (b, k) ==>
               s.blocks[x].vtx[l].txid != s.blocks[b].vtx[k].txid
    ensures forall l :: 0 <= l < |BackTxs(s, fork)| && l != j ==>
              BackTxs(s, fork)[l].txid != BackTxs(s, fork)[j].txid
  {
    hide IsAncestor, OffBranch, BackTxs;
  }

  /** Whether its inputs are good or not, a transaction that spends from one that moves from a lower block does not come
      back. */
  lemma ChildNeverBack(s: Switch, fork: Ptr, turns: Turns, b: BlockHash, k: nat, c: BlockHash, n: nat)
    requires s.Valid() && Known(s.t, fork) && IsFork(s.t, s.genesis, s.best, fork, s.pnew)
    requires turns.Valid() && turns.txs == BackTxs(s, fork)
    requires s.Moves(b, k) && s.Moves(c, n) && s.t[c].nHeight < s.t[b].nHeight
    requires MemPool.Spends(s.blocks[b].vtx[k], s.blocks[c].vtx[n])
    requires forall x: BlockHash, l: nat :: s.Moves(x, l) ==>
               && ((x, l) != (b, k) ==> s.blocks[x].vtx[l].txid != s.blocks[b].vtx[k].txid)
               && ((x, l) != (c, n) ==> s.blocks[x].vtx[l].txid != s.blocks[c].vtx[n].txid)
    requires s.blocks[b].vtx[k].txid !in turns.pool && s.blocks[c].vtx[n].txid !in turns.pool
    ensures s.blocks[b].vtx[k].txid !in PoolAfter(turns, ConnectedTxs(s, fork))
  {
    hide IsAncestor, OffBranch, BackTxs, ConnectedTxs, MemPool.Spends, Turns.At, MemPool.AfterAllConnected, Elsewhere;
    var j := TurnOf(s, fork, b, k);
    var l :| j < l < |turns.txs| && turns.txs[l] == s.blocks[c].vtx[n];
    var a := TurnOf(s, fork, c, n);
    StandsOnce(s, fork, b, k, j);
    StandsOnce(s, fork, c, n, a);
    assert l == a;
    turns.ChildIsLost(j, l);
    ConnectedShrinks(turns.At(|turns.txs|), turns.rank, ConnectedTxs(s, fork));
  }

  // ---- a parent and its child in two blocks ----

  const PAYMENT := Tx(1, 1, [TxIn(OutPoint(9, 0), [], 0)], [TxOut(5, [])], 0)
  const CHILD := Tx(2, 1, [TxIn(OutPoint(1, 0), [], 0)], [TxOut(5, [])], 0)
  const COINS: map<TxId, Coin> := map[9 := Coin(false, [TxOut(5, [])], 1, 1)]
  const LENIENT := Rules(_ => true, _ => 0, (_, _) => 0, (_, _, _, _) => true, 0)

  /** The payment comes back and its child, which stood in a higher block, does not; yet now the pool would take it. */
  lemma ChildLeftOut()
    ensures var turns := Turns(LENIENT, COINS, map[], x => x, [CHILD, PAYMENT], 40, [true, true]);
            var pool := PoolAfter(turns, []);
            pool == map[PAYMENT.txid := PAYMENT] && MemPool.Welcome(LENIENT, COINS, pool, CHILD, 40, true)
  {
    hide MemPool.InputsGood, CheckTransaction, MemPool.Descends, MemPool.AfterTurns;
    var turns := Turns(LENIENT, COINS, map[], x => x, [CHILD, PAYMENT], 40, [true, true]);
    turns.Start();
    turns.Step(0);
    turns.Step(1);
    MissingAtFirst();
    assert turns.At(1) == map[];
    GoodAlone(PAYMENT, 9, COINS);
    assert MemPool.PoolContents(COINS, map[]) == COINS;
    assert turns.At(2) == map[PAYMENT.txid := PAYMENT];
    var pool := map[PAYMENT.txid := PAYMENT];
    var all := MemPool.PoolContents(COINS, pool);
    assert all[1] == FromTx(PAYMENT, MemPool.MEMPOOL_HEIGHT);
    GoodAlone(CHILD, 1, all);
  }

  lemma MissingAtFirst()
    ensures !MemPool.Welcome(LENIENT, COINS, map[], CHILD, 40, true)
  {
    var all := MemPool.PoolContents(COINS, map[]);
    assert !Available(Live(all), CHILD.vin[0].prevout);
  }

  lemma GoodAlone(tx: Tx, from: TxId, m: map<TxId, Coin>)
    requires tx == Tx(tx.txid, 1, [TxIn(OutPoint(from, 0), [], 0)], [TxOut(5, [])], 0) && from != 0
    requires tx.txid !in m && from in m && !m[from].fCoinBase && m[from].vout == [TxOut(5, [])]
    ensures CheckTransaction(tx) && MemPool.InputsGood(LENIENT, m, tx, 40)
  {
    var u := Live(m);
    assert !m[from].vout[0].IsNull();
    assert Available(u, tx.vin[0].prevout);
    assert tx.vin[..0] == [] && tx.vin[..1] == tx.vin && ValueIn(u, []) == 0 && ValueIn(u, tx.vin) == 5;
    assert tx.vout[..0] == [] && tx.vout[..1] == tx.vout && ValueOut([]) == 0 && ValueOut(tx.vout) == 5;
    assert InputOk(u, tx, 40, 0);
  }
}

/** A run of a node: thirty blocks, a pool transaction that spends the first coinbase, and a switch to thirty-one other
    blocks. */
module DeepSwitch {
  import opened Options
  import opened Coins
  import opened Ledger
  import opened BlockTree
  import opened Availability
  import opened PoolSwitch
  import opened ChainState
  import MemPool

  const RULES := Rules(_ => true, _ => 0, (_, _) => 0, (_, _, _, _) => true, 0)

  /** Block 1 is the genesis block, blocks 2 to 31 are on top of it, and so are blocks 32 to 62. */
  const OLD_TIP: BlockHash := 31
  const NEW_TIP: BlockHash := 62

  function Coinbase(id: TxId): Tx {
    Tx(id, 1, [TxIn(OutPoint(0, NULL_INDEX), [], 0)], [TxOut(1, [])], 0)
  }

  /** Spends the coinbase of block 2. */
  const SPENDER := Tx(63, 1, [TxIn(OutPoint(2, 0), [], 0)], [TxOut(1, [])], 0)

  function BlockOf(b: BlockHash): Block {
    Block(b, [Coinbase(b)], 0)
  }

  function IndexOf(b: BlockHash): BlockIndex
    requires b >= 1
  {
    if b == 1 then BlockIndex(None, 0)
    else if b <= 31 then BlockIndex(Some(b - 1), b - 1)
    else if b == 32 then BlockIndex(Some(1), 1)
    else BlockIndex(Some(b - 1), b - 31)
  }

  /** The first `n` blocks. */
  function TreeTo(n: nat): Tree {
    map b: BlockHash | 1 <= b <= n :: IndexOf(b)
  }

  function FilesTo(n: nat): map<BlockHash, Block> {
    map b: BlockHash | 1 <= b <= n :: BlockOf(b)
  }

  lemma OneMore(n: nat)
    requires n >= 1
    ensures TreeTo(n + 1) == TreeTo(n)[n + 1 := IndexOf(n + 1)] && FilesTo(n + 1) == FilesTo(n)[n + 1 := BlockOf(n + 1)]
  {
  }

  lemma TreeIsOk(n: nat)
    requires n >= 1
    ensures TreeOk(TreeTo(n), 1) && TreeTo(n).Keys <= FilesTo(n).Keys
  {
    var t := TreeTo(n);
    forall b | b in t ensures ParentOk(t, 1, b) {
    }
  }

  /** Where the coinbases of the branch that ends in `b` begin. */
  function First(b: BlockHash): BlockHash {
    if b <= 31 then 2 else 32
  }

  function CoinsAt(b: BlockHash): Utxo
    requires b >= 1
  {
    map id: TxId | First(b) <= id <= b :: FromTx(Coinbase(id), IndexOf(id).nHeight)
  }

  lemma {:induction false} ReplayOf(n: nat, b: BlockHash)
    requires 1 <= b <= n && b <= NEW_TIP && TreeOk(TreeTo(n), 1) && TreeTo(n).Keys <= FilesTo(n).Keys
    ensures Replay(RULES, TreeTo(n), 1, FilesTo(n), Some(b)) == Some(CoinsAt(b))
    decreases b
  {
    hide Connect;
    if b == 1 {
      assert CoinsAt(1) == map[];
    } else {
      ReplayOf(n, IndexOf(b).pprev.value);
      OneMoreCoinbase(b);
      CoinbaseConnects(CoinsAt(IndexOf(b).pprev.value), b, IndexOf(b).nHeight);
    }
  }

  lemma OneMoreCoinbase(b: BlockHash)
    requires b >= 2
    ensures var prev := IndexOf(b).pprev.value;
            && prev >= 1 && b !in CoinsAt(prev)
            && CoinsAt(prev)[b := FromTx(Coinbase(b), IndexOf(b).nHeight)] == CoinsAt(b)
  {
  }

  lemma CoinbaseConnects(u: Utxo, b: BlockHash, nHeight: nat)
    requires b !in u && 1 <= nHeight < 1000
    ensures Connect(RULES, u, BlockOf(b), nHeight) == Some((u[b := FromTx(Coinbase(b), nHeight)], []))
  {
    var tx := Coinbase(b);
    assert tx.vout[..0] == [] && tx.vout[..1] == tx.vout && ValueOut([]) == 0 && ValueOut(tx.vout) == 1;
    assert CheckTransaction(tx);
    assert [tx][..0] == [] && ConnectTxs(RULES, u, [], nHeight, 0) == Some(Progress(u, [], 0, 0, true));
    assert ConnectTxs(RULES, u, [tx], nHeight, 0) == Some(Progress(AddOutputs(u, tx, nHeight), [], 0, 0, true));
    assert nHeight / 1_051_200 == 0 && Subsidy(nHeight) >= 1;
  }

  lemma {:induction false} AncestorsOf(n: nat, b: BlockHash)
    requires 1 <= b <= n && TreeOk(TreeTo(n), 1)
    ensures forall a: BlockHash :: IsAncestor(TreeTo(n), 1, Some(a), Some(b)) <==> a == 1 || First(b) <= a <= b
    decreases b
  {
    AncestorStep(TreeTo(n), 1, b);
    if b > 1 {
      AncestorsOf(n, IndexOf(b).pprev.value);
    } else {
      assert Parent(TreeTo(n), 1, 1) == None;
      forall a: BlockHash ensures !IsAncestor(TreeTo(n), 1, Some(a), None) {
      }
    }
  }

  // ---- the run ----

  function RankOf(id: TxId): nat {
    id
  }

  function ContentOf(id: TxId): Tx {
    if id == SPENDER.txid then SPENDER else Coinbase(id)
  }

  /** The node is in order, and knows the first `n` blocks. */
  ghost predicate Knows(node: Node, n: nat)
    reads node, node.pcoinsTip.Repr, node.mempool
  {
    node.Valid() && Settings(node) && node.mapBlockIndex == TreeTo(n) && node.blockFiles == FilesTo(n)
  }

  ghost predicate Settings(node: Node) {
    && node.rules == RULES && node.genesis == 1 && node.reliableDisk
    && node.mempool.rank == RankOf && node.mempool.content == ContentOf
  }

  lemma CoinbaseIsGenuine(mempool: MemPool.CTxMemPool, b: BlockHash)
    requires mempool.rank == RankOf && mempool.content == ContentOf && 1 <= b < SPENDER.txid
    ensures mempool.AllGenuine(BlockOf(b).vtx)
  {
    assert mempool.Genuine(Coinbase(b));
  }

  method Take(node: Node, b: BlockHash)
    requires Knows(node, b) && 1 <= b < NEW_TIP
    modifies node`mapBlockIndex, node`blockFiles
    ensures Knows(node, b + 1)
  {
    hide Node.Valid, IndexOf;
    OneMore(b);
    CoinbaseIsGenuine(node.mempool, b + 1);
    Predecessor(b + 1);
    var ok := node.AcceptBlock(BlockOf(b + 1), IndexOf(b + 1).pprev.value, true);
    assert ok;
  }

  lemma Predecessor(b: BlockHash)
    requires b > 1
    ensures var index := IndexOf(b); index.pprev.Some? && 1 <= index.pprev.value < b
    ensures IndexOf(b).nHeight == IndexOf(IndexOf(b).pprev.value).nHeight + 1
  {
  }

  /** A node that knows all the blocks, and has nothing connected and nothing in its pool. */
  method Start() returns (node: Node)
    ensures fresh(node) && fresh(node.pcoinsTip.Repr) && fresh(node.mempool)
    ensures Knows(node, NEW_TIP) && node.pindexBest == None && node.mempool.mapTx == map[]
  {
    hide Node.Valid;
    var mempool := new MemPool.CTxMemPool(RankOf, ContentOf);
    CoinbaseIsGenuine(mempool, 1);
    node := new Node(RULES, BlockOf(1), true, mempool);
    var b := 1;
    assert TreeTo(1) == map[1 := BlockIndex(None, 0)] && FilesTo(1) == map[1 := BlockOf(1)];
    hide Knows;
    while b < NEW_TIP
      invariant 1 <= b <= NEW_TIP && Knows(node, b)
      invariant fresh(node) && fresh(node.pcoinsTip.Repr) && node.mempool == mempool
      invariant node.pindexBest == None && mempool.mapTx == map[]
    {
      Take(node, b);
      b := b + 1;
    }
  }

  lemma ReplayKnown(node: Node, b: BlockHash)
    requires Knows(node, NEW_TIP) && 1 <= b <= NEW_TIP
    ensures node.IndexOk() && b in node.mapBlockIndex && node.ReplayTo(Some(b)) == Some(CoinsAt(b))
    ensures Known(node.mapBlockIndex, node.pindexBest)
    ensures node !in node.pcoinsTip.Repr && node.mempool !in node.pcoinsTip.Repr
  {
    hide Replay, CoinsAt;
    TreeIsOk(NEW_TIP);
    ReplayOf(NEW_TIP, b);
  }

  /** Connects the thirty blocks. */
  method Connect30(node: Node)
    requires Knows(node, NEW_TIP) && node.pindexBest == None && node.mempool.mapTx == map[]
    modifies node, node.pcoinsTip.Repr, node.mempool
    ensures Knows(node, NEW_TIP) && node.pindexBest == Some(OLD_TIP) && node.mempool.mapTx == map[]
  {
    hide Node.Valid, Replay, CoinsAt, TreeTo, FilesTo;
    ReplayKnown(node, OLD_TIP);
    NothingBackAtFirst(node);
    var r, _, _ := node.SetBestChain(OLD_TIP);
    ReplayKnown(node, OLD_TIP);
    assert r == Done;
    assert node.mempool.mapTx.Keys == {};
  }

  lemma NothingBackAtFirst(node: Node)
    requires node.IndexOk() && OLD_TIP in node.mapBlockIndex && node.pindexBest == None
    ensures forall x :: !node.BackFrom(OLD_TIP, x)
  {
  }

  /** Puts the spender into the pool, after it has passed the tests against the coins of the old branch. */
  method Bury(node: Node)
    requires Knows(node, NEW_TIP) && node.pindexBest == Some(OLD_TIP) && node.mempool.mapTx == map[]
    modifies node.mempool
    ensures Knows(node, NEW_TIP) && node.pindexBest == Some(OLD_TIP) && Buried(node)
  {
    hide Node.IndexOk, Node.UndoOk, Node.UndoThere, Node.ViewAt, LinksOk, Replay, CoinsAt, TreeTo, FilesTo;
    assert node.mempool.Genuine(SPENDER);
    NothingSpent(node.mempool);
    node.mempool.AddUnchecked(SPENDER.txid, SPENDER);
    ReplayKnown(node, OLD_TIP);
    SpenderIsGood();
  }

  lemma NothingSpent(mempool: MemPool.CTxMemPool)
    requires mempool.Valid() && mempool.mapTx == map[]
    ensures mempool.mapNextTx == map[]
  {
    assert forall o <- mempool.mapNextTx :: MemPool.EntryOk(mempool.mapTx, o, mempool.mapNextTx[o]);
    assert mempool.mapNextTx.Keys == {};
  }

  /** The pool holds just the spender, what that spends is there, and the tests of form, inputs, maturity and scripts
      are passed: the coinbase is buried thirty deep. */
  ghost predicate Buried(node: Node)
    requires node.IndexOk() && Known(node.mapBlockIndex, node.pindexBest) && node.ReplayTo(node.pindexBest).Some?
    reads node, node.mempool
  {
    && node.mempool.mapTx == map[SPENDER.txid := SPENDER] && node.PoolSupported(iset{})
    && CheckTransaction(SPENDER)
    && MemPool.InputsGood(RULES, node.ReplayTo(node.pindexBest).value, SPENDER, IndexOf(OLD_TIP).nHeight + 1)
  }

  lemma SpenderIsGood()
    ensures CheckTransaction(SPENDER)
    ensures MemPool.InputsGood(RULES, CoinsAt(OLD_TIP), SPENDER, 31)
    ensures MemPool.Supported(map[SPENDER.txid := SPENDER], CoinsAt(OLD_TIP))
  {
    var u, vin, vout := CoinsAt(OLD_TIP), SPENDER.vin, SPENDER.vout;
    var coinbase: TxId := 2;
    assert First(OLD_TIP) <= coinbase <= OLD_TIP && coinbase in u;
    assert u[coinbase] == FromTx(Coinbase(2), 1) && Available(u, vin[0].prevout);
    assert vin[..0] == [] && vin[..1] == vin && ValueIn(u, []) == 0 && ValueIn(u, vin) == 1;
    assert vout[..0] == [] && ValueOut([]) == 0 && ValueOut(vout) == 1;
    assert InputOk(u, SPENDER, 31, 0);
    NothingPruned();
    var pool := map[SPENDER.txid := SPENDER];
    forall x, n | x in pool && 0 <= n < |pool[x].vin|
      ensures MemPool.InputBacked(pool, u, iset{}, pool[x].vin[n].prevout)
    {
      assert MemPool.Backed(pool, u, vin[0].prevout);
    }
  }

  lemma NothingPruned()
    ensures Live(CoinsAt(OLD_TIP)) == CoinsAt(OLD_TIP)
  {
    var u := CoinsAt(OLD_TIP);
    forall id: TxId | First(OLD_TIP) <= id <= OLD_TIP ensures id in u && !u[id].IsPruned() {
      assert !u[id].vout[0].IsNull();
    }
  }

  /** Switches to the other thirty-one blocks: the spender stays, and what it spends is nowhere. */
  method Switch(node: Node)
    requires Knows(node, NEW_TIP) && node.pindexBest == Some(OLD_TIP) && Buried(node)
    modifies node, node.pcoinsTip.Repr, node.mempool
    ensures Knows(node, NEW_TIP) && node.pindexBest == Some(NEW_TIP)
    ensures node.mempool.mapTx == map[SPENDER.txid := SPENDER] && !node.PoolSupported(iset{})
  {
    hide Node.Valid, Replay, CoinsAt, TreeTo, FilesTo, Node.OneMissed, Node.Unmoved, Node.BackFrom, Buried;
    ReplayKnown(node, OLD_TIP);
    ReplayKnown(node, NEW_TIP);
    SpenderIsMissed(node);
    NothingComesBack(node);
    ghost var pool := node.mempool.mapTx;
    JustSpender(node);
    var r, _, _ := node.SetBestChain(NEW_TIP);
    ReplayKnown(node, NEW_TIP);
    assert r == Done;
    SamePool(node, pool);
  }

  lemma JustSpender(node: Node)
    requires node.IndexOk() && Known(node.mapBlockIndex, node.pindexBest) && node.ReplayTo(node.pindexBest).Some?
    requires Buried(node)
    ensures node.mempool.mapTx == map[SPENDER.txid := SPENDER]
  {
  }

  lemma SamePool(node: Node, pool: map<TxId, Tx>)
    requires Knows(node, NEW_TIP) && pool == map[SPENDER.txid := SPENDER]
    requires SPENDER.txid in node.mempool.mapTx && forall x <- node.mempool.mapTx :: x in pool
    ensures node.mempool.mapTx == pool
  {
    assert node.mempool.mapTx.Keys == {SPENDER.txid};
  }

  lemma NothingComesBack(node: Node)
    requires Knows(node, NEW_TIP) && node.pindexBest == Some(OLD_TIP)
    requires node.IndexOk() && NEW_TIP in node.mapBlockIndex && OLD_TIP in node.mapBlockIndex
    ensures forall x :: !node.BackFrom(NEW_TIP, x)
  {
    hide Node.Valid;
    assert forall b <- node.blockFiles :: node.blockFiles[b].vtx == [Coinbase(b)];
  }

  lemma SpenderIsMissed(node: Node)
    requires Knows(node, NEW_TIP) && node.pindexBest == Some(OLD_TIP)
    requires node.IndexOk() && NEW_TIP in node.mapBlockIndex && OLD_TIP in node.mapBlockIndex
    requires node.ReplayTo(Some(OLD_TIP)).Some? && Buried(node)
    ensures SPENDER.txid in node.Unmoved(NEW_TIP) && node.OneMissed(NEW_TIP)
  {
    hide Node.Valid, Replay, CoinsAt;
    var t, files, pool := node.mapBlockIndex, node.blockFiles, node.mempool.mapTx;
    AncestorsOf(NEW_TIP, OLD_TIP);
    AncestorsOf(NEW_TIP, NEW_TIP);
    ReplayKnown(node, NEW_TIP);
    NotAvailable();
    assert OffBranch(t, 1, Some(OLD_TIP), Some(NEW_TIP), 2);
    SpenderIsCalm(t, files);
    NoDescent(pool);
    assert SPENDER.txid in node.Unmoved(NEW_TIP);
    var o := OutPoint(2, 0);
    assert IsOutput(o, files[2].vtx[0]) && !ComesBack(RULES, t[2].nHeight, files[2].vtx[0]);
    assert Abandoned(RULES, t, 1, files, Some(OLD_TIP), Some(NEW_TIP), o);
    assert pool[SPENDER.txid].vin[0].prevout == o;
    assert SpentByRest(t, 1, files, Some(OLD_TIP), Some(NEW_TIP), pool, o);
    NothingComesBack(node);
    assert !node.BackFrom(NEW_TIP, 2);
    assert Missed(RULES, t, 1, files, Some(OLD_TIP), Some(NEW_TIP), pool, RankOf, SPENDER.txid, 0);
  }

  lemma NotAvailable()
    ensures !Available(CoinsAt(NEW_TIP), OutPoint(2, 0))
  {
  }

  lemma SpenderIsCalm(t: Tree, files: map<BlockHash, Block>)
    requires TreeOk(t, 1) && OLD_TIP in t && NEW_TIP in t && files == FilesTo(NEW_TIP)
    ensures Calm(RULES, t, 1, files, Some(OLD_TIP), Some(NEW_TIP), SPENDER)
    ensures !Leaving(t, 1, files, Some(OLD_TIP), Some(NEW_TIP), SPENDER)
  {
    hide OffBranch;
    forall b, k | b in files && 0 <= k < |files[b].vtx|
      ensures SPENDER.txid != files[b].vtx[k].txid && MemPool.NoConflict(SPENDER, files[b].vtx[k])
      ensures !ComesBack(RULES, 0, files[b].vtx[k])
    {
      assert files[b].vtx[k] == Coinbase(b);
    }
  }

  lemma NoDescent(pool: map<TxId, Tx>)
    requires pool == map[SPENDER.txid := SPENDER]
    ensures forall q <- pool :: !MemPool.Descends(pool, RankOf, SPENDER.txid, pool[q])
  {
    assert !MemPool.Spends(SPENDER, SPENDER);
  }

  /** From a node with nothing but its genesis block to a pool transaction without its input. */
  method Run() returns (node: Node)
    ensures fresh(node) && Knows(node, NEW_TIP) && node.pindexBest == Some(NEW_TIP)
    ensures node.mempool.mapTx == map[SPENDER.txid := SPENDER] && !node.PoolSupported(iset{})
  {
    hide Knows, Buried;
    node := Start();
    Connect30(node);
    Bury(node);
    Switch(node);
  }
}

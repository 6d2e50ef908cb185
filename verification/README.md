# Verification of the Blazecoin node's core

A Dafny model of the parts of the Blazecoin node that decide what its coins are, and proofs of what those parts are
relied on for. Run `dafny verify dfyconfig.toml` in this directory. Every induction is written out: lemmas for which the
verifier would choose one by itself carry `{:induction false}`.

## What is modelled

- **Coins, blocks and reorganisation** (`Options`, `Coins`, `CoinsView`, `Ledger`, `Fading`, `BlockConnect`, `BlockTree`,
  `Availability`, `ChainState`, `Supply`, `Redo`). A record of unspent outputs per transaction, caches of such records
  stacked on a database, connecting and disconnecting a block with its undo data, the tree of known blocks with forward
  links, and the switch of the best chain. `Ledger` says what a block does to a set of unspent outputs as a value; the
  classes do it in place, through caches that also hold fully spent records, and are proved against it. A missing record
  and a fully spent one mean the same (`Ledger.Live`). `Fading` says what is left of records and undo data that have been
  through the database or a file. `ChainState.Node.Valid` is the invariant of the node: the coin view at the tip shows
  the replay of the branch that ends in the best block, up to versions lost in storage; the forward links are exactly
  those of its ancestors; every undo record on disk is what its file gives back of what connecting its block on its own
  branch makes; and the memory pool is in order. `Supply` adds up the value along whole chains.
- **What blocks and transactions have to be** (`BlockLaw`, `ChainLaw`, `PoolLaw`). The same rules told a second time, in
  numbers and by the transactions that are spent from, with no reference to how a block is connected or a transaction
  accepted: `BlockLaw.Lawful` and `PoolLaw.WelcomeLaw`. A block connects, and the pool takes a transaction in, exactly if
  these hold; `ChainLaw` draws conclusions for what is paid, for scripts and for whole branches.
- **Memory pool** (`MemPool`, `PoolSwitch`, `Maturity`, `PoolReturn`, `Comeback`, `DeepSwitch`). Taking transactions in
  against chain and pool, recursive removal, and what becomes of the pool when the best chain is switched.
  `MemPool.Supported` says that whatever a pool transaction spends is there, on the chain or in the pool. `Maturity`
  separates what of the tests of a transaction is settled by the transactions it spends from, and what depends on the
  chain. `MemPool.AfterTurns` and `AfterAllConnected` are the pool after a switch as a value; `PoolReturn` and `Comeback`
  say by that which disconnected transactions come back. `DeepSwitch` is one run of a node from its genesis block on.
- **Merkle trees** (`Powers`, `Bits`, `Merkle`, `PartialTree`, `ProofTree`). The flat array, the recursive hash,
  branches, and partial trees with their bit encoding; `ProofTree` says what a partial tree is as a tree. The hash of two
  digests is an arbitrary function. Where soundness needs collision resistance, the result either is right or an explicit
  function of the inputs yields two different pairs with one hash; the version for an injective hash follows.
- **The script-check queue** (`CheckQueue`). The object, and a state machine of its critical sections over one master
  and any number of workers, with spurious wake-ups.
- **The address manager** (`AddrTables`, `AddrChoice`, `AddrMan`, `AddrSave`, `AddrCheck`). Its linked tables as a value
  with their invariant, which entries random draws choose, the object that updates the tables, its file, and its
  self-check. Bucket hashes are arbitrary functions, random draws arbitrary values in range.
- **Scrypt** (`Scrypt`, `ScryptSse2`, `ScryptVectors`). The function of RFC 7914 for N = 1024, r = 1, p = 1 (Salsa20/8 by
  quarter rounds), the portable program and the vector program. Key derivation is an arbitrary function. The RFC's own
  vectors for the core and for the block mix tie the definitions to it.
- **Retarget and compact targets** (`Powers`, `Compact`, `BigNum`, `Phoenix`, `PhoenixVectors`). The exponential retarget in
  64-bit arithmetic, and the compact form with and without sign. The lemmas about published vectors check the formula at
  literal inputs, and are no results of their own.
- **Stored form of coins** (`Octets`, `Bits`, `VarInt`, `Amounts`, `ScriptCodec`, `Stored`, `CoinsCodec`, `CodecVectors`):
  numbers of variable length, amounts and scripts in short form, records and undo records, octet by octet. Whether an
  octet string is a point of the curve is an arbitrary function that fits its inverse. **Block locators** (`Locator`).

Where the code does not do what it is said or expected to do, the code is followed:

- A negative version does not survive storage: of -1 the variable-length form keeps 127 (`VarInt.MinusOne`,
  `CoinsCodec.NegativeVersionLost`, `CoinsCodec.NegativeUndoLost`), although src/serialize.h:248 says that every integer
  has its own encoding. So disconnecting a block brings back the records that the block had emptied exactly if none of
  them has a negative version (`Fading.DisconnectWhole`; `Fading.VersionLost` is a block where it does not). The node's
  coin view is the replay up to such versions on every branch, and the replay itself on a branch without negative
  versions (`ChainState.Node.TipWhole`).
- A partial tree does not always have at most 2N - 1 flag bits for N hashes (src/main.h:1205). It does exactly if no
  matched transaction stands below a node with a single child (`PartialTree.BitsBound`); a tree of three transactions
  whose last is matched has too many (`PartialTree.BitsBoundFails`). The tree's height is always enough of an allowance.
- One half-life of lateness more raises the exponent by exactly one unit only where division towards zero does not come
  between; `Phoenix.HalfLifeLater` says where.
- `SelectTried` remembers a position after the swap has moved the entry it looked at (src/addrman.cpp:136-144). It names
  the least recently successful of the entries it inspects exactly if the draw that chose that entry was the place it
  was put in (`AddrChoice.NamesOldestIff`); so it names another whenever the first draw is of the least recently
  successful entry of the bucket and that one does not stand first (`AddrChoice.NamesAnother`).
- An undo record whose height is zero is read back without its version; this loses nothing exactly if the version is
  zero, as it is in all such records that spending makes (`CoinsCodec.UndoRoundTrip`).
- After a switch of the best chain, not all that the pool spends need be there. `ChainState.Node.ForGood` are the outputs
  of disconnected transactions that do not come back (coinbases, and all in old blocks), that are not there on the new
  branch, and that the pool spends in a transaction which is neither connected nor in conflict; all this is read off
  before the switch. If there are none, all is there afterwards. If one of them is spent by a transaction that the switch
  has nothing to do with, nor with anything it descends from in the pool (`Unmoved`), that one stays and not all is there.
  So wherever one of these two is the case, all is there exactly if nothing is gone for good. One of them always is, if
  what is gone for good was made by coinbases and is spent by unmoved transactions (`DecidedBefore`). `DeepSwitch.Run`
  takes a coinbase thirty blocks deep through a switch that leaves its spender in the pool without it.
- Not every transaction of a disconnected block comes back into the pool that could. Turns go from the old tip downwards
  (src/main.cpp:1882-1902), so a transaction is tried before those of lower blocks that it spends from. If one of those
  moves too, it does not come back at all (`Comeback.ChildNeverBack`): either an input is missing at its turn, or its
  parent, which the new branch has as well, is refused later and takes it along (src/main.cpp:1966). Otherwise, where
  policy refuses nothing, nothing rivals it and the new branch has its inputs, it does come back, and so it does exactly
  if it spends from no transaction that moves from a lower block (`Comeback.ComesBackIff`; for the node,
  `Comeback.PoolThen` in `ChainState.Node.SetBestChain`). In `Comeback.ChildLeftOut` a child is left out that the pool
  would take.
- None comes back at all if the coin view at the tip was not flushed, as in the initial download: its cache has fully
  spent records of the disconnected transactions, and `HaveCoins` finds these (src/main.cpp:242-244, 733). That is the
  case of `ChainState.Node.SetBestChain` without `flushed`; with it, the view knows just what has unspent outputs.
- Two of the octet strings that src/serialize.h:255-256 gives as examples are those of other numbers: 80 FF 7F is 32895
  and not 16511, and 82 FD 7F is 65407 and not 65535 (`CodecVectors.OtherNumbers`).
- Nor need a pool transaction still pass the tests that it passed on entering: it does exactly if the chain does not know
  it, its inputs are there, and the coinbases it spends are deep enough under the best block
  (`ChainState.Node.StillAcceptable`). An unmoved one stays in the pool all the same.
- Octets have more than one reading: a number that does not fit the type is read modulo its size, and then the octets are
  not the ones it is written as (`VarInt.OneEncoding`, `VarInt.TwoTo32`), although src/serialize.h:248 says otherwise.
- The self-check of the address manager accepts more than consistent states; `AddrCheck.WhatIsTested` says what more a
  consistent one fulfils. A manager with any number of entries in one new bucket passes (`AddrCheck.CrowdPasses`), and
  reading a file may make one with more than 64 there, since src/addrman.h:361-377 does not look at the size. Looking up
  an address that is missing enters number 0 for it (src/addrman.cpp:457). `Good` at time zero or before, and `Attempt`
  before time zero, leave a state that it rejects.

## Model

| member | source | states |
|---|---|---|
| ChainState.Node.SetBestChain | src/main.cpp:1844-1987 | On any fork: keeps the node's invariant; succeeds, on a reliable disk, exactly if the whole new branch connects from the genesis block; a failure leaves coin view, links, pool and best block as they were; undo data once written is never changed; afterwards no transaction of a newly connected block is in the pool, nor one in conflict with it; the pool holds only what it held or what may come back, and all of it that the switch has nothing to do with; if all that it spent was there, all is there iff nothing is gone for good, wherever nothing is or one such output is spent by a transaction that is not moved; the pool is exactly what the turns of disconnected transactions and the connected blocks leave of it; where policy refuses nothing, a disconnected transaction that nothing hinders and whose inputs are good on the new branch is in it iff none that it spends from moves from a lower block; and if the tip was not flushed, nothing comes back |
| ChainState.Node.DecidedBefore | src/main.cpp:1892-1898 | That proviso holds if what is gone for good was made by coinbases and is spent by transactions that are not moved |
| ChainState.Node.StillAcceptable | src/main.cpp:722-812 | At any time, and so after a switch, a pool transaction passes the tests iff the chain does not know it, its inputs are there and the coinbases it spends are mature |
| ChainState.Node.Prepare | src/main.cpp:1844-1921 | Up to the flush the node is as it was, but for undo data |
| ChainState.Node.constructor | src/main.cpp:35-43 | The invariant holds for a node that knows only its genesis block and has no best block |
| ChainState.Node.AcceptBlock | src/main.cpp:2233-2320 | A block enters exactly if it is not known, its predecessor is, and it is acceptable; it then touches no replay, undo data, link or pool entry of what was there |
| ChainState.Node.ConnectBlock | src/main.cpp:1693-1842 | A view that shows the parent's replay is brought to the block's, or the block is invalid on that branch; what has been lost of versions makes no difference |
| ChainState.Node.WriteUndo | src/main.cpp:1805-1827 | Undo data goes to the file at the first connection only, and what the file gives back stays right for every later one |
| ChainState.Node.DisconnectBlock | src/main.cpp:1574-1660 | With the undo data that its file gives back, a view at a block is brought back to its parent up to versions; the block is never found inconsistent or unclean |
| ChainState.Node.FindFork | src/main.cpp:1850-1863 | The two walking pointers end at a common ancestor above which there is no other |
| ChainState.Node.Collect | src/main.cpp:1865-1874 | The list is the path between a block and its ancestor, tip first |
| ChainState.Node.DisconnectAll | src/main.cpp:1881-1899 | Disconnecting the old branch block by block arrives at the fork |
| ChainState.Node.ConnectAll | src/main.cpp:1901-1921 | Connecting the new branch arrives at its tip; if some block fails, the branch as a whole does not replay |
| ChainState.Node.SwitchView | src/main.cpp:1846-1921 | Fork search, disconnection and connection together; the base of the view has not moved |
| ChainState.Node.Commit | src/main.cpp:1923-1946 | Flushing moves what the temporary view shows to the tip view; if the tip is flushed too, it has no fully spent records any more, and otherwise it shows just the entries of the temporary view |
| ChainState.Node.TipWhole | src/main.cpp:1606-1608 | As long as no block of the best chain has a negative version, the coin view at the tip is the replay itself |
| ChainState.Node.Adopt | src/main.cpp:1923-1987 | Coins, links, pool and best block become those of the new branch |
| ChainState.Node.MovePool | src/main.cpp:1961-1973 | The pool part of the switch, with what is known of the tip's entries: if it was flushed they all have unspent outputs, and otherwise all disconnected transactions have one, so that none comes back |
| ChainState.Node.TurnsTold | src/main.cpp:1961-1973 | What the reorganisation of the pool does is what the turns and the connected blocks do to it as a value |
| ChainState.Node.UpdatePool | src/main.cpp:1961-1973 | The pool afterwards has nothing in common or in conflict with the connected blocks, and spends only what is there or was disconnected for good; the coin view shows what it showed |
| ChainState.Node.Resurrecting | src/main.cpp:1892-1899 | The transactions that come back: of disconnected blocks above the last checkpoint, but for coinbases |
| ChainState.Node.Deleting | src/main.cpp:1918-1920 | The transactions of the connected blocks, in order |
| ChainState.Node.Relink | src/main.cpp:1951-1984 | The forward links are those of the new main chain |
| ChainState.Node.Unlink | src/main.cpp:1951-1954 | Clearing links along the old branch leaves those of the chain up to the fork |
| ChainState.Node.Link | src/main.cpp:1956-1959 | Setting links along the new branch gives those of the chain up to its tip |
| BlockTree.MainChainIsAncestry | src/main.h:1764-1767 | Under the invariant, a block is in the main chain by its link or as the best one iff it is the best block or an ancestor of it |
| BlockTree.ReplayThenDisconnect | src/main.cpp:1574-1660 | Undo data made when a block first connected, and read from its file, takes the last block off any replay of its branch, whatever has been lost of it before; what it loses is versions of records that the block had emptied |
| BlockTree.NaturalBlocks | src/main.cpp:1606-1608 | A branch is without negative versions iff none of its blocks has one |
| BlockTree.ReplayWhole | src/main.cpp:1606-1608 | Of the replay of such a branch nothing is lost in storage |
| BlockTree.ReplaySound | src/main.cpp:1844-1987 | Every replayed branch yields trimmed records with an unspent output and height at least 1 |
| BlockTree.ReplayPrefix | src/main.cpp:1901-1921 | If a branch connects so does every part of it from the genesis block |
| BlockTree.StepBack | src/main.cpp:1853-1863 | Stepping back from the higher of two blocks keeps all their common ancestors |
| BlockTree.GrowUndo | src/main.cpp:2033-2060 | Undo data stays right when blocks are added to the tree |
| BlockTree.UnlinkBest | src/main.cpp:1951-1954 | Clearing one forward link makes the links right for the parent |
| BlockTree.LinkBest | src/main.cpp:1956-1959 | Setting one forward link makes the links right for the child |
| Ledger.DisconnectUndoesConnect | src/main.cpp:1574-1659 | For every block that connects, also one that spends its own outputs, disconnecting with the undo data as it was made gives back exactly the set of unspent outputs before it, with height, version and coinbase flag |
| Ledger.ConnectTxsFacts | src/main.cpp:1744-1786 | The same for any leading part of a block's transactions |
| Ledger.ConnectTxFacts | src/main.cpp:1440-1456 | The same for one transaction: its outputs are there to be removed, and its inputs can then be restored |
| Ledger.SpendInputsFacts | src/main.cpp:1440-1451 | Restoring a transaction's inputs in reverse order undoes spending them; just those outputs are no longer available |
| Ledger.SpendNeverFails | src/main.cpp:1447-1448 | A transaction without repeated inputs, all of them available, is spent to the end: the assertion after each spend holds |
| Redo.RedoesDisconnect | src/main.cpp:1574-1659 | The converse of undoing a block: undo data that takes a block off cleanly, of whatever origin, gives a set from which the block's spends and outputs lead back to just the set it was taken from, if no version is negative |
| Redo.SpendUndoesRestore | src/main.cpp:1624-1646 | Undo data that restores an output cleanly is that of spending it: spending it again gives back the set before, and the undo record itself if it tells of a whole transaction, which is then not there |
| BlockLaw.ConnectsIff | src/main.cpp:1693-1803 | A block connects iff it is lawful: header, first transaction and no other minting, each transaction in order by itself, none known, everything it spends there where it stands, thirty blocks deep if minted, worth what is made of it, at most 20,000 signature operations, scripts passing from the checkpoint on under flags by its time, and the first paying no more than subsidy and fees |
| BlockLaw.CheckTransactionIff | src/main.cpp:561-607 | A transaction passes its own tests iff it takes and makes something, makes nothing negative and no more than 2,065,000,000 coins in all, takes nothing twice, and takes the null output only if it takes nothing else |
| BlockLaw.CheckInputsIff | src/main.cpp:1507-1536 | Inputs that are there are in order iff minted ones are thirty blocks deep, none is negative, and all are worth at least the outputs and no more than there can be |
| BlockLaw.ConnectTxIff | src/main.cpp:1749-1791 | One transaction in the loop: when it goes through, and what it adds to fees, signature operations and script verdict |
| BlockLaw.ConnectTxsIff | src/main.cpp:1747-1792 | The whole loop goes through iff every transaction's place is lawful and the signature operations are at most 20,000, and adds up the fees; heights and versions of records are those of their blocks and transactions |
| BlockLaw.SubsidyIs | src/main.cpp:1082-1095 | 20,650,000 coins up to height 1, 13 up to 99, and then 413 divided by two to the number of eras of 1,051,200 blocks |
| ChainLaw.PayLimit | src/main.cpp:1795-1796 | A block lawful otherwise connects iff its first transaction pays at most the subsidy and what the others leave over; total unspent value grows by just the subsidy iff it pays all of that |
| ChainLaw.ConnectAddsUp | src/main.cpp:1775-1796 | Connecting a block adds what its first transaction makes and takes away the fees |
| ChainLaw.ScriptsDecide | src/main.cpp:1710-1803 | Below the height from which scripts are judged they decide nothing; from there on a block connects iff it would with all scripts passing and they pass, with the same result |
| ChainLaw.BranchJudged | src/main.cpp:1710-1803 | The same for every branch |
| ChainLaw.ScriptsHavePassed | src/main.cpp:1771-1803 | On a branch that replays, every input's script at or above that height has passed against the very output it spends, with pay-to-script-hash by the block's time |
| ChainLaw.LawfulOnBranch | src/main.cpp:1693-1803 | Every block of a branch that replays is lawful on top of its predecessors |
| ChainLaw.OutcomeIs | src/main.cpp:1440-1456 | The set after a block, output by output: which are unspent, of what value and script, from a coinbase or not, with which height and version |
| ChainLaw.CoinbaseIsDeep | src/main.cpp:1516-1520 | On a branch that replays, whatever spends from a coinbase stands at least thirty blocks above the block that holds it |
| Fading.ConnectFaded | src/main.cpp:1693-1803 | Whatever has been lost of versions, the same blocks connect with the same outcome up to it, and the undo data in the file is the same |
| Fading.ConnectShown | src/main.cpp:1693-1803 | So it does not matter what has been lost of the set that a block is connected to |
| Fading.DisconnectFromFile | src/main.cpp:1574-1660 | With undo data from its file, disconnecting gives the set before the block, but for what had been lost before and the versions of records that the block had emptied |
| Fading.DisconnectWhole | src/main.cpp:1606-1610 | Nothing is lost iff no record that the block emptied has a negative version |
| Fading.VersionLost | src/main.cpp:1606-1610 | A block at height 32 that empties a record of height 31 with version -1: after it is disconnected the record has version 127 |
| Fading.NothingToLose | src/main.h:993-1020 | A set without negative versions comes back from storage as it was |
| Fading.ConnectKeepsNatural | src/main.cpp:1440-1456 | A block without negative versions brings none in |
| Availability.ConnectAvailable | src/main.cpp:1744-1786 | Exactly those outputs can be spent after a block that could before or that it has made, and that it has not spent |
| Availability.AlongPath | src/main.cpp:1901-1921 | Along a branch only what its blocks make becomes available, and only what they spend goes |
| Coins.RestoreUndoesSpend | src/main.h:1056-1070 | The undo record of a spend brings the record back whole, whether the spend emptied it or not, and the height in the undo record tells which |
| Coins.TrimThenResize | src/main.h:919-924 | Dropping spent outputs at the end loses nothing that resizing and putting back does not restore |
| Coins.CCoins.SpendOutput | src/main.h:1056-1070 | In place: fails without a change if the output is not available, otherwise the new record and the undo record |
| Coins.CCoins.Cleanup | src/main.h:919-924 | The longest leading part that ends in an unspent output |
| CoinsView.View.FetchCoins | src/main.cpp:219-229 | What a stack of caches shows is found, whatever level holds it, and looking changes nothing that is shown |
| CoinsView.View.SetCoins | src/main.cpp:237-240 | Changes what this view shows for one transaction, and no view below |
| CoinsView.View.GetBestBlock | src/main.cpp:246-250 | The best block of the nearest level that has one; asking changes nothing that is shown |
| CoinsView.View.BatchWrite | src/main.cpp:257-262 | The written entries override what was shown before; in the database, up to versions, and fully spent ones are deleted |
| CoinsView.View.Flush | src/main.cpp:264-269 | Afterwards the base shows what this view showed; the database, up to versions |
| CoinsView.StoringFades | src/txdb.cpp:56-66 | What the database shows after a batch is what was shown before but for what is lost of the batch's versions |
| BlockConnect.HaveInputs | src/main.cpp:1458-1477 | True iff every input's output is available in what the caches show |
| BlockConnect.CheckInputs | src/main.cpp:1491-1566 | Presence, maturity at the height after the view's best block, ranges, and scripts under the given flag are judged on what the caches show, and nothing shown is changed |
| BlockConnect.UpdateCoins | src/main.cpp:1440-1456 | In place through the caches: every spend succeeds, and the outcome is the value-level spend and addition |
| BlockConnect.ConnectTransactions | src/main.cpp:1693-1803 | The loop over a block's transactions succeeds iff the block connects as a value, with that result and that undo data; the block's time chooses the script flag |
| BlockConnect.DisconnectTransactions | src/main.cpp:1591-1650 | The loop in reverse over raw, partly pruned records agrees with disconnecting as a value, and reports clean exactly when that succeeds |
| BlockConnect.RestoreIgnoresPruned | src/main.cpp:1621-1643 | A pruned record is restored into exactly as a missing one |
| Supply.SupplyBounded | src/main.cpp:1082-1098 | On every branch that connects the total unspent value is at most the subsidies of its heights, at most 888,901,174 coins, and below the money limit |
| Supply.SubsidiesBounded | src/main.cpp:1082-1098 | The subsidies of all heights from 1 to any height add up to at most 888,901,174 coins |
| Supply.ConnectValue | src/main.cpp:1795-1796 | A block adds at most its subsidy to the unspent value |
| Supply.ConnectTxValue | src/main.cpp:1526-1535 | A transaction only moves value between unspent outputs and fees; a coinbase alone creates any |
| Supply.ConnectTxsValue | src/main.cpp:1775-1775 | Conservation over all transactions of a block |
| Supply.SpendInputsValue | src/main.cpp:1413-1423 | What leaves the unspent set is what the inputs are counted as |
| Supply.FeesFit | src/main.cpp:1775-1775 | Wherever the loop over a block's transactions stands, on any branch, the running total of fees, the value of the next transaction's inputs, which are only known to be there, and their sum fit a signed 64-bit integer |
| Supply.InputsBounded | src/main.cpp:1413-1423 | Distinct inputs that are there are worth at most all unspent value |
| CheckQueue.WaitIsConjunction | src/checkqueue.h:61-118 | `Wait` returns the conjunction of all checks added since it last returned, skipped ones included, and leaves the queue as a new controller expects it |
| CheckQueue.AlwaysInv | src/checkqueue.h:61-118 | In every state of every interleaving: pending checks are those queued or in flight, threads in the loop are those counted, no check is lost or run twice, and a failed check is remembered |
| CheckQueue.NextKeeps | src/checkqueue.h:61-147 | Each step of any thread keeps the invariant |
| CheckQueue.MasterHasWorker | src/checkqueue.h:71-99 | No lost wake-up: while the master sleeps without a pending notification some worker holds a batch |
| CheckQueue.NoDeadlock | src/checkqueue.h:61-118 | From every reachable state inside `Wait` some thread can go on by itself |
| CheckQueue.WaitTerminates | src/checkqueue.h:61-118 | Any run inside `Wait` has at most as many steps as there was work at its start, and two more for every spurious wake-up |
| CheckQueue.ProgressWorks | src/checkqueue.h:61-118 | Every step that a thread takes by itself brings the remaining work down |
| CheckQueue.ControllerAssertions | src/checkqueue.h:164-171 | The three assertions of a new controller hold whenever nothing was added since the last return |
| CheckQueue.CCheckQueue.Section | src/checkqueue.h:68-111 | One critical section in place, from taking the mutex to sleeping, returning or leaving with a batch |
| CheckQueue.CCheckQueue.Take | src/checkqueue.h:101-108 | The batch is taken from the end of the queue |
| CheckQueue.BatchIsShare | src/checkqueue.h:95-101 | A batch is the largest fair share of the queue among the threads and one more, within 1 and the limit |
| CheckQueue.CCheckQueue.RunBatch | src/checkqueue.h:112-116 | The batch's verdict is the conjunction, although checks after a failure are skipped |
| CheckQueue.CCheckQueue.Add | src/checkqueue.h:136-147 | All checks are queued and counted; one worker is notified of one check, all of them of more |
| PartialTree.AcceptedIsTrue | src/main.cpp:2550-2581 | Whoever shows a block's root over its true transaction count, with any bits and hashes, shows an in-order selection of its transactions, or has found two pairs with one hash |
| PartialTree.AcceptedIsTrueIfInjective | src/main.cpp:2550-2581 | With an injective hash the selection is true outright |
| ProofTree.AcceptsIff | src/main.cpp:2550-2581 | A message is accepted iff it is the flags, filled up within their last byte, and the hashes of a tree that fits, for at most 16,666 transactions and no more hashes than those; it then tells the tree's hash and its marked leaves |
| ProofTree.ReadsTree | src/main.cpp:2504-2532 | A tree is read back wherever it stands |
| ProofTree.ReadIsTree | src/main.cpp:2504-2532 | Whatever is read is a tree that fits |
| PartialTree.ExtractSound | src/main.cpp:2504-2532 | The same for every node of the tree |
| PartialTree.RoundTrip | src/main.cpp:2486-2581 | For every choice of a block's transactions, built, packed, unpacked and extracted: accepted, with the block's root and exactly the chosen transactions in order |
| PartialTree.SendAndExtract | src/main.h:1241-1258 | The same through the objects and their serialisation |
| PartialTree.ExtractUndoesBuild | src/main.cpp:2486-2532 | Extraction reads back a subtree wherever its bits and hashes stand |
| PartialTree.BitsBound | src/main.h:1195-1205 | Hashes are at most the transactions and at most one more than matches times height; bits are at most 2N - 1 plus height, and at most 2N - 1 iff no match stands below a single child |
| PartialTree.BitsBoundFails | src/main.h:1205-1205 | Three transactions with the last one matched exceed 2N - 1 |
| PartialTree.Sizes | src/main.cpp:2486-2502 | Bits plus one are twice the hashes plus the single-child nodes descended into |
| PartialTree.LoneFree | src/main.cpp:2486-2502 | No single-child node is descended into iff no leaf below the last node of an odd level is matched |
| PartialTree.HashesPerMatch | src/main.h:1197-1198 | The hashes are at most one more than matches times height |
| PartialTree.NoWrap | src/main.h:1224-1226 | For the counts that are accepted no size or position reaches 2^16 |
| PartialTree.CPartialMerkleTree.constructor | src/main.cpp:2534-2546 | The height loop and the traversal give the tree of the whole block |
| PartialTree.CPartialMerkleTree.TraverseAndBuild | src/main.cpp:2486-2502 | Appends exactly the bits and hashes of the subtree |
| PartialTree.CPartialMerkleTree.TraverseAndExtract | src/main.cpp:2504-2532 | Running over either array sets the failure flag for good; otherwise counters, hash and matches are those of the subtree |
| PartialTree.CPartialMerkleTree.ExtractMatches | src/main.cpp:2550-2581 | Zero for a tree that is not acceptable in any of the tests, else the root and matches |
| PartialTree.CPartialMerkleTree.Write | src/main.h:1252-1256 | Eight bits to a byte, least significant first, filled up with zeros |
| PartialTree.CPartialMerkleTree.Read | src/main.h:1244-1250 | Bits are unpacked and the failure flag cleared |
| Bits.PackUnpacked | src/main.h:1241-1258 | Unpacking and packing is the identity on bytes |
| Bits.UnpackPacked | src/main.h:1241-1258 | Packing and unpacking only appends zeros |
| Bits.BitValue | src/main.h:1249-1255 | Bit j of a byte stands for the jth power of two |
| Merkle.OneRoot | src/main.h:1386-1440 | The end of the flat array, the recursive hash and climbing the branch of any transaction agree, for every count and index |
| Merkle.SmallRoots | src/main.h:1386-1403 | The roots of one, two and three transactions, and a branch of the last |
| Merkle.BranchSound | src/main.h:1427-1440 | A climb of the right length to the root from another digest or along another branch yields two pairs with one hash |
| Merkle.BranchLeadsToRoot | src/main.h:1411-1440 | Climbing the branch of any entry leads to the root, odd levels included |
| Merkle.LevelIsHash | src/main.cpp:2469-2484 | The recursive hash of a node is its entry in the level-by-level tree |
| Merkle.WidthHalves | src/main.h:1224-1226 | Each level has half the nodes of the one below, rounded up |
| Merkle.CBlock.BuildMerkleTree | src/main.h:1386-1403 | The array is all levels one after the other, and the result its root |
| Merkle.CBlock.GetMerkleBranch | src/main.h:1411-1425 | The siblings on the way to the root, read from the flat array |
| Merkle.CheckMerkleBranch | src/main.h:1427-1440 | Climbs the branch; zero for index -1 |
| ScryptSse2.ScryptSse2 | src/scrypt-sse2.cpp:95-136 | The vector program computes the function of RFC 7914 on every input, as the portable one does |
| Scrypt.ScryptGeneric | src/scrypt.cpp:246-277 | The portable program computes the function of RFC 7914, sections 3 to 6, on every input |
| Scrypt.EightRounds | src/scrypt.cpp:182-227 | The unrolled rounds on sixteen variables are four double rounds made of quarter rounds |
| Scrypt.XorSalsa8 | src/scrypt.cpp:180-244 | In place on one half of the block, the other half unchanged |
| Scrypt.MixBlock | src/scrypt.cpp:262-263 | The two calls in a row are one block mix |
| Scrypt.Fill | src/scrypt.cpp:260-264 | The scratchpad holds the chain of block mixes |
| Scrypt.Walk | src/scrypt.cpp:265-271 | The data-dependent loop is the second loop of scryptROMix |
| Scrypt.IntegerifyIsLowTen | src/scrypt.cpp:266-266 | The last 64 octets as a little-endian number, modulo 1024, are the low ten bits of word 16 |
| Scrypt.Le32Inverse | src/scrypt.h:20-34 | Decoding four octets undoes encoding a word |
| Scrypt.Le32Onto | src/scrypt.h:20-34 | Encoding a word undoes decoding four octets |
| ScryptSse2.ColumnsByLanes | src/scrypt-sse2.cpp:50-62 | A column round is a quarter round in each lane |
| ScryptSse2.RowsByLanes | src/scrypt-sse2.cpp:69-81 | A row round is a quarter round in each lane of the shuffled vectors |
| ScryptSse2.Turned | src/scrypt-sse2.cpp:64-86 | The shuffles take columns to rows and back |
| ScryptSse2.RotateLane | src/scrypt-sse2.cpp:51-62 | Two shifts put in one after the other are a rotation |
| ScryptSse2.SourceTarget | src/scrypt-sse2.cpp:109-113 | The layout is a permutation of the sixteen words |
| ScryptSse2.LaneStep | src/scrypt-sse2.cpp:50-62 | The vector statements of half a double round |
| ScryptSse2.EightRoundsSse2 | src/scrypt-sse2.cpp:44-87 | The eight rounds on four vectors hold the layout of the scalar rounds |
| ScryptSse2.XorSalsa8Sse2 | src/scrypt-sse2.cpp:38-93 | Keeps the layout through exclusive or, rounds and final addition |
| ScryptSse2.FillSse2 | src/scrypt-sse2.cpp:115-120 | The vector scratchpad holds the layout of the chain |
| ScryptSse2.JumpSse2 | src/scrypt-sse2.cpp:121-127 | The word that chooses the block is the same in the layout, and so is the step |
| ScryptSse2.Load | src/scrypt-sse2.cpp:109-113 | Loading word by word gives the layout of the decoded block |
| ScryptSse2.StoreSse2 | src/scrypt-sse2.cpp:129-133 | Storing word by word in layout order writes the block in its own order |
| ScryptVectors.OneQuarterRound | src/scrypt.cpp:203-212 | The operations of the loop body on the words 1, 0, 0, 0 |
| ScryptVectors.ACore | src/scrypt.cpp:183-244 | The vector of RFC 7914, section 8, for the Salsa20/8 core |
| ScryptVectors.BCore | src/scrypt.cpp:183-244 | The second core of the vector of section 9 |
| ScryptVectors.Mix | src/scrypt.cpp:257-272 | The vector of RFC 7914, section 9, for scryptBlockMix, in octets |
| AddrMan.CAddrMan.MakeTried | src/addrman.cpp:204-260 | Keeps all links between the tables while an entry moves from its new buckets to its tried bucket, with eviction if that is full, of the very entry that the four draws name |
| AddrTables.PromotedMeans | src/addrman.cpp:204-260 | Promotion forgets nobody and moves at most one other entry, of the same and full tried bucket, which is then in exactly one new bucket; statistics stay in order if the entry has been reached |
| AddrTables.BucketsAre | src/addrman.cpp:9-36 | The hashes modulo 64 and 256 choose the buckets |
| AddrTables.EvictedGoesTo | src/addrman.cpp:234-253 | An evicted entry goes to the new bucket that its hash chooses, or if that has 64 entries to the one that the promoted entry came from; nothing else changes in the new buckets but that the promoted entry leaves them |
| AddrTables.PromoteEvictKeeps | src/addrman.cpp:231-259 | All links between the tables survive eviction |
| AddrTables.PromoteFreeKeeps | src/addrman.cpp:208-229 | All links between the tables survive promotion to a bucket with room |
| AddrMan.CAddrMan.Good | src/addrman.cpp:262-311 | At any time: an unknown or differing address changes nothing; a known one is refreshed and promoted if it was not tried; the links hold, and the whole invariant iff the time is positive |
| AddrMan.RefreshedIs | src/addrman.cpp:278-281 | A good address was tried, reached and seen at that time, and has no failed attempts; nothing else about it changes |
| AddrMan.CAddrMan.FindBucket | src/addrman.cpp:289-301 | Counting from a random start finds a bucket that holds the entry whenever one does |
| AddrMan.CAddrMan.Add | src/addrman.cpp:313-369 | Consistent afterwards, through the moment when a reference is counted that no bucket holds yet; says when anything is added or refreshed, and which entry leaves a full bucket; a known address enters another bucket iff it is news and the draw among two to the number of its buckets is zero |
| AddrMan.HeardIs | src/addrman.cpp:324-331 | What hearing again of an address does to its time and services, in seconds |
| AddrMan.IsNewsIff | src/addrman.cpp:333-343 | When it may enter another bucket |
| AddrMan.PenalizedIs | src/addrman.cpp:353-353 | The time of a new entry, less the penalty, as an unsigned number of 32 bits |
| AddrMan.CAddrMan.ShrinkNew | src/addrman.cpp:150-202 | In that moment, drops one entry of the bucket and never the one about to enter: the first that may simply be dropped, or else the longest unseen of up to four drawn; in numbers (`AddrChoice.Goes`): which entries are droppable by when they were tried, seen and reached, which of them goes, and that otherwise none of those drawn was seen before the one that goes |
| AddrChoice.TerribleIff | src/addrman.cpp:38-57 | An entry may simply be dropped iff it was not tried in the last 60 s and its time is more than 600 s ahead, zero or more than 2,592,000 s past, or it had 3 attempts and never success, or 10 attempts and no success for 604,800 s |
| AddrChoice.LeavesAndGoes | src/addrman.cpp:150-202 | Who leaves by the tests of the code leaves by these numbers, with this result |
| AddrChoice.FreshGoesByDraw | src/addrman.cpp:178-202 | A bucket of untried entries seen within thirty days loses one that was drawn, and none of those drawn was seen before it |
| AddrChoice.EntersAt64 | src/addrman.cpp:361-367 | Only a bucket of 64 is full; then one leaves, as said, and the new one takes its place |
| AddrMan.CAddrMan.Enter | src/addrman.cpp:359-367 | The entry is in the bucket afterwards, and counted once more unless it was there |
| AddrTables.EnterKeeps | src/addrman.cpp:361-367 | Entering the bucket settles the reference counted before |
| AddrTables.UnrefKeeps | src/addrman.cpp:162-170 | Dropping a reference, and the entry with its last one, keeps the tables consistent |
| AddrTables.EraseKeeps | src/addrman.cpp:164-168 | Erasing an entry held by no bucket keeps the tables consistent |
| AddrTables.CreateKeeps | src/addrman.cpp:94-104 | A new entry keeps the tables consistent but for the reference it is about to use |
| AddrTables.SwapKeeps | src/addrman.cpp:106-124 | Swapping two places keeps the tables consistent |
| AddrMan.CAddrMan.SelectTried | src/addrman.cpp:126-148 | Shuffles one tried bucket by the draws, changes no other, and names the position that the draws lead to |
| AddrChoice.NamesOldestIff | src/addrman.cpp:128-147 | The entry recorded is the least recently successful of those inspected; the position named is its position iff the draw that chose it was the place it was put in |
| AddrChoice.NamesAnother | src/addrman.cpp:128-147 | In a bucket of any size, if the first draw is of the least recently successful entry and that one does not stand first, the position named is that of another entry |
| AddrChoice.InspectedAlike | src/addrman.cpp:128-147 | Which entry is named goes by when entries were last successful, and by nothing else of them |
| AddrMan.CAddrMan.SwapRandom | src/addrman.cpp:106-124 | The two entries and their positions change places |
| AddrMan.CAddrMan.Attempt | src/addrman.cpp:371-388 | Only the statistics of the very address are changed; the links hold, and the whole invariant iff the time is not negative |
| AddrMan.CAddrMan.Connected | src/addrman.cpp:510-529 | Only its time is changed, and only if it is long out of date |
| AddrMan.CAddrMan.GetAddr | src/addrman.cpp:494-508 | Different addresses of entries, 23 in a hundred but at most 2500, after a shuffle that keeps the tables consistent |
| AddrMan.CAddrMan.Check | src/addrman.cpp:435-491 | Zero iff all that is tested is in order; the manager is consistent iff besides what is left untested is; only addresses looked up in vain are entered, and none in a consistent manager |
| AddrCheck.Check | src/addrman.cpp:435-491 | Zero iff counts and entries are right, each tried entry is met once in the tried buckets, each new one as often in the new buckets as it is counted, and nothing else is met |
| AddrCheck.WhatIsTested | src/addrman.cpp:435-491 | The invariant holds iff the self-check passes and what it leaves open is in order: unused identifiers, the presence of entry 0's address, addresses that lead nowhere, number, sizes and places of buckets |
| AddrCheck.CrowdPasses | src/addrman.cpp:435-491 | Any number of entries in one new bucket pass the self-check, and are consistent iff they are at most 64 |
| AddrCheck.RandomFollows | src/addrman.cpp:458-464 | That each place of the random order belongs to an entry follows, by counting, from each entry having its own |
| AddrMan.CAddrMan.Save | src/addrman.h:279-317 | In some order of the entries, new ones first, the file holds every entry once and each new bucket's entries by number |
| AddrMan.CAddrMan.Load | src/addrman.h:319-377 | What was written is read back as a consistent manager, the same but for the keys of its entries |
| AddrSave.RoundTrip | src/addrman.h:278-378 | The same records, new or tried as before, in the same new and tried buckets, with the same reference counts; nothing is lost |
| AddrSave.EntryRenamed | src/addrman.h:48-55 | All of an entry comes back but its key, its place in the random order, and when it was last tried |
| AddrSave.ReadTriedKeeps | src/addrman.h:341-360 | A tried bucket being refilled always has room, so no tried entry is given up |
| AddrSave.ReadRefKeeps | src/addrman.h:361-377 | The limit of references per entry is never in the way |
| AddrSave.ReadNewKeeps | src/addrman.h:327-339 | Each new record read keeps the indexes consistent |
| AddrSave.WriteNew | src/addrman.h:283-295 | Stopping at the count of new entries leaves none out, and each is numbered by its place in the file |
| AddrSave.WriteTried | src/addrman.h:296-306 | Stopping at the count of tried entries leaves none out |
| AddrSave.WriteBucket | src/addrman.h:307-317 | The numbers of exactly the bucket's entries, each once |
| Phoenix.LaterIsEasier | src/phoenix413.h:85-136 | The retarget never gets harder with lateness, across fraction wrap-around, clamps and compact rounding, as a target and as a compact form |
| Phoenix.ParentTimeAndHeight | src/phoenix413.h:85-136 | So it never gets harder with a later parent time, nor easier with a greater height |
| Phoenix.InRange | src/phoenix413.h:127-136 | For every anchor and lateness the result is canonical, positive and within the limit, and so passes the range test |
| Phoenix.OnSchedule | src/phoenix413.h:91-136 | A chain on schedule keeps the anchor's bits at every height iff they are canonical and within the limit |
| Phoenix.HalfLifeLater | src/phoenix413.h:94-99 | One half-life more raises the exponent by 65536 iff the chain was not ahead, or still is, or divides evenly; else by 65535 |
| Phoenix.UnitDoubles | src/phoenix413.h:101-123 | One unit of the exponent doubles the target up to the bit rounded off |
| Phoenix.RawGrows | src/phoenix413.h:101-123 | The unclamped target grows with the exponent |
| Phoenix.FactorFacts | src/phoenix413.h:107-113 | The factor lies in 65536 to 131071, and its polynomial fits into 64 bits |
| PhoenixVectors.Steady | contrib/phoenix413/phoenix413_vectors.json:6-50 | The five published vectors of a chain whose blocks all take 30 seconds, which the formula sees 30 seconds ahead |
| PhoenixVectors.Jitter | contrib/phoenix413/phoenix413_vectors.json:51-104 | The six of a single early or late block |
| PhoenixVectors.HalfLives | contrib/phoenix413/phoenix413_vectors.json:105-194 | The ten of one to five half-lives behind and ahead |
| PhoenixVectors.Stranded | contrib/phoenix413/phoenix413_vectors.json:195-239 | The five far behind, with the limit and a parent time from the future |
| PhoenixVectors.Least | contrib/phoenix413/phoenix413_vectors.json:240-248 | The one where nothing is left of the target |
| PhoenixVectors.Anchors | contrib/phoenix413/phoenix413_vectors.json:249-302 | The six with other anchors |
| PhoenixVectors.Walk | contrib/phoenix413/phoenix413_vectors.json:303-411 | The twelve of a random walk |
| PhoenixVectors.LimitPublished | contrib/phoenix413/phoenix413_vectors.json:4-4 | The limit in compact form is 0x1e0fffff, as in the published vectors |
| PhoenixVectors.EncodeShifted | src/phoenix413.h:59-78 | Multiplying by 256 adds one to the size of the compact form and changes nothing else |
| Phoenix.NextCompact | src/phoenix413.h:85-136 | With 32-bit times and heights no 64-bit value overflows on the way to the result |
| Phoenix.ExponentOf | src/phoenix413.h:91-99 | The signed 64-bit computation of the exponent is exact |
| Phoenix.FactorOf | src/phoenix413.h:107-113 | The unsigned 64-bit computation of the factor is exact |
| Phoenix.SetCompact | src/phoenix413.h:42-56 | The big number is what the compact form stands for, sign ignored |
| Phoenix.GetCompact | src/phoenix413.h:59-78 | The compact form of the big number |
| Phoenix.SetPowLimit | src/phoenix413.h:34-39 | The limit is 2^236 - 1 |
| Phoenix.CheckProofOfWork | src/main.cpp:1260-1282 | True iff the signed target is positive and within the limit and the hash does not exceed it |
| Compact.Rounding | src/bignum.h:326-347 | Encoding never rounds up, is exact below 2^23, and loses less than one part in 2^15 |
| Compact.Greatest | src/bignum.h:326-347 | No compact form whatever is nearer from below |
| Compact.DecodeThenEncode | src/bignum.h:307-347 | Decoding and encoding is the identity exactly on the canonical forms |
| Compact.EncodeMonotone | src/bignum.h:326-347 | Encoding keeps the order of numbers |
| Compact.CanonicalOrder | src/bignum.h:307-325 | Canonical forms stand in the order of what they stand for |
| BigNum.CBigNum.SetCompact | src/bignum.h:307-325 | The number with its sign; minus zero does not arise |
| BigNum.CBigNum.GetCompact | src/bignum.h:326-347 | The unsigned form with the sign bit added |
| BigNum.SignedRounding | src/bignum.h:307-347 | Both signs come back, up to the leading bytes |
| VarInt.ReadWritten | src/serialize.h:272-303 | A number of any signed type is read back as itself or, if negative, as its low seven bits, and what follows is left |
| VarInt.WholeIffNatural | src/serialize.h:272-303 | A number comes back iff it is not negative |
| VarInt.MinusOne | src/serialize.h:248-248 | The number -1 is written as 127 is |
| VarInt.OneEncoding | src/serialize.h:237-303 | In a type of any size, the number read is the one that the octets stand for modulo the size, and the octets are those that it is written as iff that one fits the type |
| VarInt.OneEncodingUnbounded | src/serialize.h:237-250 | Without bounds, whatever octets are read as a number are the ones it is written as |
| VarInt.ReadModIs | src/serialize.h:289-303 | Reduction at every digit gives the number modulo the size of the type |
| VarInt.TwoTo32 | src/serialize.h:257-257 | The octets of 2^32 are read as 0 in 32 bits |
| VarInt.BufferFits | src/serialize.h:275-275 | The buffers for 32-bit and 64-bit numbers are long enough |
| CodecVectors.Numbers | src/serialize.h:252-257 | The examples given, but for two |
| CodecVectors.OtherNumbers | src/serialize.h:255-256 | Those two are written otherwise, and the octets given are read as other numbers |
| VarInt.WriteVarInt | src/serialize.h:272-287 | Filling the buffer from the last digit on and writing it backwards gives the digits |
| VarInt.ReadVarInt | src/serialize.h:289-303 | In a type of any size, the loop reads a number from any octets, or finds them too short |
| ScriptCodec.RoundTrip | src/script.h:640-665 | Every script whose size is a 32-bit number, of a short form or not, is read back, and what follows is left |
| ScriptCodec.CompressedBack | src/script.cpp:1783-1902 | Each short form has the length that its first octet tells and stands for the very script |
| Stored.CoinWhole | src/main.h:993-1053 | What is kept of a record is the whole of it iff version and height are not negative |
| Stored.UndoWhole | src/main.h:743-760 | What is kept of an undo record is the whole of it iff it has a height and no negative version, or neither height nor version |
| CoinsCodec.RoundTrip | src/main.h:993-1053 | Octet by octet, a record with an unspent output is read back without the spent outputs at its end and with what is kept of its version, and what follows in the stream is left |
| CoinsCodec.TrimmedRoundTrip | src/main.h:993-1053 | A trimmed record is read back whole iff version and height are not negative |
| CoinsCodec.WrittenAlike | src/main.h:993-1020 | Trimmed records are written alike iff the same is kept of them |
| CoinsCodec.NegativeVersionLost | src/main.h:993-1053 | Versions -1 and 127 are written alike and read back as 127 |
| CoinsCodec.HeaderParts | src/main.h:1001-1005 | The header code is not negative and tells flag, first two outputs and number of mask bytes, the case of one less included |
| CoinsCodec.ReadMaskBack | src/main.h:1032-1043 | Reading stops at the last mask byte and not before |
| CoinsCodec.BeyondMask | src/main.h:947-963 | Nothing beyond the mask is unspent |
| CoinsCodec.CalcMaskSize | src/main.h:947-963 | The last used byte and the count of non-zero ones |
| CoinsCodec.Serialize | src/main.h:993-1020 | Writes the octets that the round trips speak of, its assertion holding |
| CodecVectors.OneOutput | src/main.h:862-875 | The first example of a stored record, octet by octet |
| CodecVectors.TwoOutputs | src/main.h:877-896 | The second one, with a mask of two bytes |
| CoinsCodec.Unserialize | src/main.h:1022-1053 | Reads a record from any octets, every number in its own type, or finds them too short |
| CoinsCodec.UndoRoundTrip | src/main.h:743-760 | An undo record comes back whole iff it has a height and no negative version, or neither height nor version |
| CodecVectors.UndoRecords | src/main.h:742-748 | An undo record with height, coinbase flag and version, and one without |
| CoinsCodec.NegativeUndoLost | src/main.h:743-760 | The undo record of the last output of a transaction with version -1 is read back with version 127 |
| CoinsCodec.SpendMakesWritable | src/main.h:1056-1070 | The undo record of a spend comes back whole iff the spend does not empty the record or its version is not negative |
| Amounts.DecompressCompress | src/main.cpp:4858-4901 | Decompression undoes compression for every natural number |
| Amounts.CompressDecompress | src/main.cpp:4858-4901 | And compression undoes decompression |
| Amounts.MoneyFits | src/main.cpp:4858-4877 | The short form of an amount of money fits into 63 bits |
| Amounts.CompressAmount | src/main.cpp:4858-4877 | The 64-bit computation, for every 64-bit input |
| Amounts.DecompressAmount | src/main.cpp:4879-4901 | The 64-bit computation, wrapping, for every 64-bit input |
| CodecVectors.AmountPairs | src/test/compress_tests.cpp:39-44 | The pairs that the tests give, and the amounts in the examples of src/main.h |
| MemPool.CTxMemPool.Remove | src/main.cpp:850-872 | Recursively removes exactly the transaction and all that descend from it, terminates, and leaves nothing that spends an output of what was removed |
| MemPool.CTxMemPool.RemoveConflicts | src/main.cpp:874-887 | Nothing else in the pool spends an input of the transaction afterwards, nor an output of what was removed; transactions without conflict, that spend of the pool from one another only, stay; exactly the rivals are gone, and what descends from them |
| MemPool.CTxMemPool.DeleteConnected | src/main.cpp:1969-1973 | After the loop no pool transaction is in the connected branch or conflicts with it |
| MemPool.CTxMemPool.Reorganise | src/main.cpp:1961-1973 | After resurrecting, whichever transactions policy takes, and deleting: nothing in common or in conflict with the connected branch; all that the pool spends is there but for what was given up; a set of transactions that spend of the pool from one another only, and that nothing moved touches, stays; the pool afterwards is just what all turns and the connected transactions leave of it, for the choices that policy made |
| MemPool.CTxMemPool.Accept | src/main.cpp:663-834 | Accepted iff form and policy allow it, no input is spent in the pool, and, if asked, it is not known, its inputs are available on chain or in pool, mature, in range and with good scripts under the strict flags; keeps the record of spends exact, the pool supported, and what is settled on entering |
| MemPool.CTxMemPool.FetchInputs | src/main.cpp:726-765 | The view with the records of the inputs, from the chain first and then from the pool |
| MemPool.CTxMemPool.CheckAgainst | src/main.cpp:726-812 | The tests on that view agree with those on chain and pool together |
| MemPool.CTxMemPool.Resurrect | src/main.cpp:1962-1967 | A disconnected transaction's turn, exactly: if form, policy and inputs are good against chain and pool, the pool does not have it and nothing there spends its inputs, it is added; otherwise it and all that descends from it is gone, and nothing else moves |
| MemPool.CTxMemPool.ResurrectAll | src/main.cpp:1962-1967 | All turns, one after the other, as a value |
| MemPool.CTxMemPool.DeleteOne | src/main.cpp:1970-1973 | A connected transaction goes, with its rivals and all that descends from those, and nothing else |
| PoolLaw.WelcomeIff | src/main.cpp:661-812 | The pool takes a transaction iff policy does and neither pool nor chain know it, it is in order by itself and no coinbase, its inputs are there on the chain or else in the pool and spent by none there, minted ones are thirty blocks deep under the next block, values are in range and cover the outputs, and its scripts pass with P2SH and strict encoding |
| PoolReturn.Turns.TurnDecides | src/main.cpp:1962-1967 | A disconnected transaction is in the pool after all turns iff it was taken in at its own and descends from none that is refused later |
| PoolReturn.Turns.ReturnsIff | src/main.cpp:1962-1967 | With inputs on the chain and no rivals it comes back iff none that it spends from has its turn later |
| PoolReturn.Turns.ChildIsLost | src/main.cpp:1962-1967 | A transaction that spends from one with a later turn does not come back |
| PoolReturn.Turns.NoneBack | src/main.cpp:733-734 | If the coin view knows all of them, none comes back |
| PoolReturn.StaysThroughConnected | src/main.cpp:1969-1973 | A pool transaction that spends from none in the pool, is not connected and has no connected rival stays |
| PoolReturn.InPoolAfterIff | src/main.cpp:1961-1973 | The same over turns and connected blocks |
| Comeback.ComesBackIff | src/main.cpp:1880-1973 | Told by the blocks: a disconnected transaction that nothing hinders and whose inputs are good on the new branch is in the pool afterwards iff none that it spends from moves from a lower block |
| Comeback.ChildNeverBack | src/main.cpp:1880-1973 | Good inputs or not, a transaction that spends from one that moves from a lower block is not in the pool afterwards |
| Comeback.ChildLeftOut | src/main.cpp:1962-1967 | A payment and its child from two blocks: only the payment comes back, although the pool would then take the child |
| Comeback.NoneComesBack | src/main.cpp:733-734 | With an entry for every disconnected transaction in the coin view, none comes back |
| Comeback.TurnsGoDown | src/main.cpp:1882-1902 | Turns go from the tip downwards, and through each block from its beginning |
| Comeback.OneFork | src/main.cpp:1850-1863 | Two branches have just one last block in common |
| MemPool.PendingDeleted | src/main.cpp:1961-1973 | When the connected branch has been deleted, all that the pool spends is there but for what was given up |
| MemPool.KeptThroughRemove | src/main.cpp:850-872 | Recursive removal keeps transactions that spend of the pool from one another only and not from what is removed |
| MemPool.StillGood | src/main.cpp:722-812 | The same of a pool over any coins that are records of transactions |
| MemPool.AcceptedIsFair | src/main.cpp:1491-1566 | What passed the tests on entering is in order but for what depends on the chain |
| Maturity.JudgedBy | src/main.cpp:1491-1566 | Inputs that are there are in order iff ranges, fee and scripts are, which the transactions they come from settle, and the coinbases among them are deep enough |
| Maturity.ReplayRecorded | src/main.cpp:1440-1456 | What every replay holds of a transaction are outputs of that very transaction |
| PoolSwitch.PendingAfterSwitch | src/main.cpp:1881-1973 | What the pool spent on the old branch is on the new one there, resurrected, made or gone for good, or its spender leaves; what the new branch makes and does not spend is there |
| PoolSwitch.StayingUntouched | src/main.cpp:1961-1973 | The transactions that are not moved spend, of the pool, from one another only, and nothing that comes back or is connected is among them, made what they spend, or is their rival |
| PoolSwitch.HeldOrBack | src/main.cpp:1962-1967 | What the pool holds afterwards it held before, or it may come back |
| PoolSwitch.MissedAfter | src/main.cpp:1961-1973 | An output gone for good that such a transaction spends is missed after the switch |
| PoolSwitch.CoinbaseNeverBack | src/main.cpp:1896-1898 | A coinbase is never in the pool and never comes back |
| DeepSwitch.Bury | src/main.cpp:1514-1517 | Thirty blocks deep, a coinbase may be spent: its spender passes the tests of form, inputs, maturity and scripts against the coins of the chain, and enters the pool |
| DeepSwitch.Switch | src/main.cpp:1881-1973 | Thirty-one other blocks become the best chain, and the spender is in the pool without what it spends |
| DeepSwitch.Run | src/main.cpp:1844-1987 | The whole run, from a node with only its genesis block on |
| MemPool.CTxMemPool.AddUnchecked | src/main.cpp:836-847 | The record of spends stays exact |
| MemPool.CTxMemPool.PruneSpent | src/main.cpp:650-660 | Of a record just those outputs become unavailable that the pool spends |
| MemPool.NoDoubleSpend | src/main.cpp:836-847 | No two inputs in the pool spend the same output |
| MemPool.AllGone | src/main.cpp:850-872 | If nothing left spends the root or what was removed, all descendants were removed |
| MemPool.DescendsFurther | src/main.cpp:856-862 | What descends from a child descends from its parent |
| Locator.LocatorFinds | src/main.h:2013-2065 | For a fork d blocks back an ancestor of the tip in the peer's main chain is found, exactly d back for d up to 11, else at most 2d - 11, and the retraced distance is never short |
| Locator.FindsFrom | src/main.h:2013-2065 | The same from any point of the locator, with the doubling of the step |
| Locator.ForkExists | src/main.h:2051-2065 | Any tip and any peer with the same genesis block have such a fork |
| Locator.MainBelow | src/main.h:1764-1767 | What is below a block of the peer's main chain is in it, whoever's tree is walked |
| Locator.CBlockLocator.Set | src/main.h:2013-2028 | The hashes at the steps back, and the genesis block last |
| Locator.CBlockLocator.GetBlockIndex | src/main.h:2051-2065 | The first hash that is in the main chain, or else the genesis block |
| Locator.CBlockLocator.GetDistanceBack | src/main.h:2030-2049 | The distance retraced with the same doubling, below 2^31 iff at most 40 hashes are passed over |
| Locator.FitsIff | src/main.h:2033-2047 | In at most 40 rounds neither distance nor step reaches 2^31; after 41 the distance does |

## Left out

- Sockets, messages, RPC, wallet, user interface, mining and disk-file allocation.
- Script evaluation, signature checks, signature-operation counts, proof of work and sizes in `CheckBlock`: functions or predicates in `Ledger.Rules`.
- SHA-256, HMAC and PBKDF2: arbitrary functions. The alignment of the scrypt scratchpad is not modelled.
- Transaction hashes: `txid` is a field of a transaction; blocks and pool hold transactions whose hash is their own, and the pool assumes a rank by which inputs are older than their spender.
- ScriptCodec.RoundTrip: the curve is a pair of functions of which the second undoes the compression of keys that the first accepts.
- CoinsCodec.Unserialize: signed numbers that do not fit are taken for their low 32 bits, as common compilers do; the language leaves it undefined.
- ChainState.Node.AcceptBlock: the tests of proof of work, time, checkpoints and block version after the look-up of the predecessor are one given truth value; failures to write the block are not modelled.
- ChainState.Node.SetBestChain: I/O errors are a free choice at every access unless the disk is declared reliable; failures after `view.Flush()` (disk space, database write), which abort the node, are not modelled, and when the tip is flushed to the database is a free choice. Where all that spend an output gone for good descend, in the pool, from a transaction that may come back (policy decides whether it does) or from a rival of a connected one, only that its absence suffices is stated.
- ChainState.Node.ConnectBlock: without `fJustCheck`, status bits, transaction index and wallet notification; the genesis block is not checked again; script checks are all queued and judged at the end, as with script-check threads.
- `SetBestChain`'s marks on invalid blocks, the choice of the branch with most work, and checkpoints.
- Supply.SubsidiesBounded: the subsidy is halved by repeated division; the shift of the code is undefined from 64 halvings on.
- `fQuit` of the check queue is set nowhere, so the branch that returns on it is not in the model.
- AddrMan.CAddrMan.Load: reads files that `Save` wrote under the same key and bucket count; other bucket counts and damaged files are not modelled.
- `Select_` and `GetChance` of the address manager, which use floating point.
- `GetNextWorkRequired` of the earlier eras and the cached anchor lookup.
- PartialTree.CPartialMerkleTree.constructor: needs at least one transaction, as the code reads the first digest unconditionally.
- MemPool.CTxMemPool.Accept: standard form and policy (forms of inputs, fee, rate limiter) are two given truth values; replacement is dead code in the source and is not modelled.
- Locator.CBlockLocator.GetDistanceBack: where the distance reaches 2^31 the code's 32-bit addition overflows, which is undefined; the model goes on.
- The `GetSerializeSize` members of the serialised classes.
- Bloom filters, `mruset`, `limitedmap`, base58 and alerts.

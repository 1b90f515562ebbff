# Krapi, verified

Krapi is a small proof-of-work blockchain behind a voting application. This project models what its
full nodes do to their state, and proves what that keeps over whole runs.

A full node holds three key-value stores (the chain, the transaction pool, the spent transactions) and a
queue that feeds its miner. Nothing in it stores the chain as a list: blocks sit in a map under their
hashes, are scanned in byte order of those hashes, and the tip is whatever the largest-timestamp scan finds.
Most of the project is about what that map stands for.

| file | what it holds |
|---|---|
| `Keys`, `Records`, `Database` | byte-ordered keys, the stored values, the LevelDB wrapper (`DBInterface.h`) |
| `Chain`, `Growth` | the abstract chain, the map that stands for it, and `last`; when a store that grew still stands for a chain |
| `Hashing`, `Mining` | what a hash is taken over, the nonce search, chains of mined blocks, two nodes' common prefix |
| `Validator`, `Blockchain`, `Download` | the checks, the block store's scans, the initial block download |
| `Ledger` | the node as a state machine: one function a handler, events, runs |
| `Safety`, `Spending` | what every run keeps; when a transaction can be in a second block; miner against validator |
| `Pool`, `Queueing`, `PoolSync` | `wait`, the queue over whole runs, pool synchronisation |
| `Peers`, `Uniqueness` | two nodes' runs and a download between them; when a transaction is on the chain once |
| `Cycle`, `Messages` | the miner's task once round, and Merkle roots over runs; what the messages sent amount to where they arrive |
| `FullNode` | the node as an object, each handler proved to be its step of `Ledger` |
| `Tally` | the vote count over the chain, the transaction count over pool and spent store |
| `Retry`, `Events` | failed sends, parking and replay; promises, replies, the event queue |

Code that updates fields or loops in the original is a class or a method here, proved equal to a step
function; the properties are lemmas about the step functions and their runs. SHA-256 and the Merkle root are
two uninterpreted functions (`Hashing.Crypto`) whose values are 64 upper-case hex digits. Collision-freedom is
assumed in one place only, the common prefix, and there only of the texts that occur in the two chains
(`Mining.NoCollision`).

## What the code does not do

Some things one would expect are false of the code. The code is modelled as it is; each has a concrete
input, or the exact condition under which the expected thing does hold, or both.

- A block that passes validation may still not be stored: `put` refuses a hash that is taken, the handlers
  ignore the refusal, spend the block's transactions and announce it. It is stored exactly when its hash is
  new (`Safety.AcceptedIsStoredIff`, `Safety.TakenHashIsDropped`); for mined blocks on a chain of mined blocks
  it always is (`Spending.MinedBlockIsStored`).
- The validator recomputes neither the hash nor the Merkle root of a block, and looks at neither its nonce nor the
  name of its miner (`Cycle.RootIsNotChecked`). A run fed only blocks with their own roots holds only such blocks,
  the node's own included (`Cycle.RunKeepsRooted`).
- A transaction can be on the chain twice. Only one that was pooled when its block was accepted is recorded as
  spent, so an unpooled one passes again (`Spending.RepeatAcceptedIff`, `Uniqueness.UnpooledTwice`); and the
  validator does not compare a block's transactions with each other (`Uniqueness.PooledTwiceInOne`). Each is
  there once, at every point of a run, exactly when every stored block's transactions are distinct and pooled
  at that moment (`Uniqueness.OnceRunIff`).
- Downloaded blocks are stored unvalidated. Whatever they are, the store still holds one chain exactly when
  each block that is new follows the tip or another new block, and no two claim one predecessor
  (`Download.DownloadKeepsChainIff`). For a peer with a well-formed chain of its own, on which no local hash
  stands for another block, that is: nothing is announced, or the first announced block links to the local
  tip (`Safety.PeerLinksUpIff`). A fork one block deep is enough to break it (`Safety.ForkedPeerBreaksChain`).
- The text a hash is taken over is ambiguous: the timestamp and nonce digits are not separated
  (`Hashing.AmbiguousPreimage`). Equal texts mean equal timestamps and nonces exactly when the
  timestamps are equally wide (`Hashing.PreimageInjective`), which is what the common prefix inherits: two
  mined chains can share a hash and differ in its block's timestamp (`Mining.SplitTimestamp`).
- `enqueue_stored` queues again what `add` already queued, so a batch can hold a transaction twice
  (`Queueing.ReplayRepeats`). No hash is queued twice exactly when, at each replay, nothing queued before is
  still pooled (`Queueing.EnqueuedOnceIff`). No hash is batched twice exactly when whatever is dequeued a second
  time has been spent by then (`Queueing.BatchedOnceIff`). A start that queues nothing before its one replay
  meets both (`Queueing.OrdinaryStartBatchesOnce`).
- A request submitted under a tag that is already pending is never answered
  (`Events.SubmittedIsPendingIff`, `Events.DroppedIsNeverResolved`).
- `PromiseStore::set_result` answers false when it resolved a promise and true when there was none.

## Model

| member | source | states |
|---|---|---|
| Keys.SortedKeys | src/SharedModels/DBInterface.h:37-47 | iteration visits every key of a store once, in strictly ascending byte order |
| Keys.AscendingUnique | src/SharedModels/DBInterface.h:37-47 | a set of keys has only one ascending enumeration, so the iteration order is determined by the keys alone |
| Records.SetTransactionsStatus | src/BlockchainModels/Block.h:52-57 | every transaction gets the status and nothing else of the block changes, order and header included |
| Database.ScanIsAscending | src/SharedModels/DBInterface.h:37-47 | any ascending listing of exactly the stored keys yields `data()`: the scan is a function of the map, not of the order of writes |
| Database.ScanMembers | src/SharedModels/DBInterface.h:37-47 | a scan yields every stored value and nothing else |
| Database.FilterScan | src/Servers/Node/Blockchain/Blockchain.cpp:97-102 | keeping some values of a scan, in order, is scanning the part of the store that passes |
| Database.Store.Put | src/SharedModels/DBInterface.h:73-80 | stored if and only if the tag was free; a refused put leaves the store untouched, an accepted one adds that one entry |
| Database.Store.Remove | src/SharedModels/DBInterface.h:82-97 | succeeds if and only if the tag was there; exactly that entry is gone |
| Database.Store.Size | src/SharedModels/DBInterface.h:23-35 | the counting scan finds the number of entries |
| Chain.LastIsTip | src/SharedModels/DBInterface.h:99-112 | on a store that holds a chain, the timestamp scan of `last()` finds the final block, in whatever order the hashes are scanned |
| Chain.LatestOfIsFirst | src/SharedModels/DBInterface.h:99-112 | on any store `last()` is the first block of the scan with the largest timestamp, and blank if no timestamp is positive |
| Chain.ChainUnique | src/SharedModels/DBInterface.h:73-80 | the hash-keyed map determines the sequence: two time-ordered chains with one map are one chain |
| Chain.SequenceOfIs | src/Servers/Node/Blockchain/BlockchainManager.cpp:95-96 | the one sequence a store stands for is recovered from its map alone |
| Chain.ExtendWellFormed | src/Servers/Node/Validator.h:14-37 | a block passing the three header checks against the tip, under a new hash, extends the chain: genesis first, links, timestamps, prefixes and distinct hashes all still hold |
| Chain.PrefixWellFormed | src/Servers/Node/Blockchain/Blockchain.cpp:64-71 | any non-empty lower part of a chain is a chain |
| Chain.ScanIsReversedIff | src/Servers/Node/Blockchain/Blockchain.cpp:84-91 | the key-order scan is the chain reversed if and only if the hashes fall along the chain |
| Chain.ScanIsPermutation | src/Servers/Node/main.cpp:234 | with any hashes, a scan is the chain rearranged: each block once |
| Growth.SubchainIsPrefix | src/SharedModels/DBInterface.h:73-80 | a chain whose store holds every block of another chain extends that chain |
| Growth.AttachEarliest | src/Servers/Node/main.cpp:136-139 | of linked new blocks the earliest follows the tip, and the rest are linked to it |
| Growth.GrownIsChainIff | src/Servers/Node/main.cpp:136-139 | the store of a chain to which any blocks were added holds a chain if and only if each added block follows the tip or another added one and no two name the same predecessor; that chain then extends the old one |
| Hashing.DecimalInjective | src/Servers/Node/Miner.h:73 | two numbers printed alike are equal |
| Hashing.PreimageInjective | src/Servers/Node/Miner.h:72-76 | equal texts over 64-character hashes have equal link and root; they have equal timestamp and nonce if and only if the timestamps are equally wide in decimal |
| Hashing.AmbiguousPreimage | src/Servers/Node/Miner.h:72-76 | for every timestamp, a leading digit of the nonce can as well be the last digit of the timestamp: two pairs, one text |
| Hashing.GenesisTextIsFormatted | src/Servers/Node/Blockchain/Blockchain.cpp:14-25 | the literal used as the text of the genesis hash is what formatting link, root, timestamp and nonce gives |
| Hashing.GenesisIsHashed | src/Servers/Node/Blockchain/Blockchain.cpp:14-35 | genesis carries the digest of its own fields, formatted as any block's are |
| Hashing.GenesisPreimageDiffers | src/Servers/Node/Blockchain/Blockchain.cpp:14-25 | it is the text of no block hashed over a 64-character link and root |
| Hashing.LessIsNumeric | src/Servers/Node/Miner.h:78 | on equally long upper-case hex, string comparison is comparison of the numbers |
| Hashing.ProofOfWorkBound | src/Servers/Node/Miner.h:78 | a digest that starts with four zeros is below 16^60 |
| Validator.NoneSpentIff | src/Servers/Node/Validator.h:64-73 | the early-return loop succeeds if and only if no transaction of the block is in the spent store |
| Validator.ValidatesIff | src/Servers/Node/Validator.h:52-74 | on a store that holds a chain, a block validates if and only if it follows the chain's end and none of its transactions is spent |
| Validator.NamesFirstFailure | src/Servers/Node/Validator.h:26-36 | each rejection names the first check the block fails, in the order timestamp, prefix, link, spent transaction; all four directions |
| Mining.FirstWin | src/Servers/Node/Miner.h:67-92 | the nonce found wins, lies in 64 bits, and every smaller one loses; none found means every 64-bit nonce loses |
| Mining.MiningFunction | src/Servers/Node/Miner.h:46-93 | the loop returns the block of the least winning nonce over the Merkle root of the hashes of its own transactions; when no nonce wins it would go round for ever |
| Mining.MinedIsMinedOn | src/Servers/Node/Miner.h:56-92 | its block links to the given hash, carries the hash of its own text, the Merkle root of its transactions' hashes in order and the given identity, keeps the batch and the timestamp, and its nonce is the least that meets both conditions |
| Mining.MinedDescends | src/Servers/Node/Miner.h:78 | along a chain of mined blocks every later hash is below every earlier one |
| Mining.MinedScan | src/Servers/Node/Blockchain/Blockchain.cpp:84-91 | on a chain of mined blocks the key-order scan is the chain reversed |
| Mining.MinedIsFresh | src/SharedModels/DBInterface.h:73-80 | the hash of a block mined on the tip is not in the store, so `put` never refuses it |
| Mining.MinedExtends | src/Servers/Node/Blockchain/BlockchainManager.cpp:161 | putting a block mined on the tip extends the chain of mined blocks by exactly that block |
| Mining.MinedChainIsBounded | src/Servers/Node/Miner.h:78 | a chain of mined blocks never has more than 16^60 blocks after genesis |
| Mining.SharedLink | src/Servers/Node/Miner.h:72-90 | a hash in two mined chains is genesis in both or neither, carries the same header content, and its predecessors share a hash too |
| Mining.CommonPrefix | src/Servers/Node/Miner.h:68-92 | two nodes' mined chains that share a hash have it at one height, and agree on hash, link and root at every height up to it; on timestamp and nonce exactly where the timestamps are equally wide |
| Mining.CommonTransactions | src/Servers/Node/Miner.h:56-64 | without root collisions, two such chains that share a hash hold the same transaction hashes in order at every height up to it |
| Mining.SplitTimestamp | src/Servers/Node/Miner.h:72-90 | two mined chains that share a hash at height one whose blocks have timestamps 1668542626 and 16685426261, for any digest under which the first of them wins, and with no collision between different texts |
| Mining.SplitTimestampOccurs | src/Servers/Node/Miner.h:72-90 | there are digests under which it wins, so the common prefix cannot promise equal timestamps |
| Blockchain.BlockStore.constructor | src/Servers/Node/Blockchain/Blockchain.cpp:38-48 | an empty database gets the genesis block and nothing else; any other is left alone |
| Blockchain.BlockStore.Last | src/SharedModels/DBInterface.h:99-112 | the loop finds the latest block of the scan, the blank block on an empty store |
| Blockchain.BlockStore.GetHeaders | src/Servers/Node/Blockchain/Blockchain.cpp:84-91 | the headers of the scan, in its order |
| Blockchain.BlockStore.GetAllAfter | src/Servers/Node/Blockchain/Blockchain.cpp:93-104 | the headers of the hashed blocks later than the given timestamp, in scan order |
| Blockchain.BlockStore.RemoveAllAfter | src/Servers/Node/Blockchain/Blockchain.cpp:50-73 | an unknown hash changes nothing; a known one removes and returns exactly the blocks not earlier than it, over a snapshot |
| Blockchain.FilterCuts | src/Servers/Node/Blockchain/Blockchain.cpp:97-102 | a filter true from some height up selects exactly the scan of the upper part, whatever the key order |
| Blockchain.AllAfterIff | src/Servers/Node/Blockchain/Blockchain.cpp:97-102 | on any store, a header is in the reply if and only if it is of a stored block with a hash and a later timestamp |
| Blockchain.AllAfterOnChain | src/Servers/Node/Blockchain/Blockchain.cpp:93-104 | for a block of the chain, `get_all_after` yields the headers of exactly the blocks above it |
| Blockchain.RemoveAllAfterOnChain | src/Servers/Node/Blockchain/Blockchain.cpp:50-73 | for a block of the chain, `remove_all_after` returns each block from it upward once, in key order, and leaves the chain strictly below it, well-formed when non-empty |
| Blockchain.MinedScanRunsBackwards | src/Servers/Node/Blockchain/Blockchain.cpp:84-91 | the upper part of a chain of mined blocks scans backwards as well |
| Blockchain.MinedAllAfterRunsBackwards | src/Servers/Node/Blockchain/Blockchain.cpp:93-104 | on a chain of mined blocks `get_all_after` is the suffix after the block, reversed |
| Blockchain.MinedRemovalRunsBackwards | src/Servers/Node/Blockchain/Blockchain.cpp:64-72 | and `remove_all_after` returns the suffix from the block on, reversed |
| Download.RequestHeaders | src/Servers/Node/main.cpp:28-57 | the reply chosen through the size-ordered map is a longest header list with the peer that sent it, and the first among equally long ones |
| Download.DownloadBlocks | src/Servers/Node/main.cpp:60-102 | the blocks found for the headers, in order, each looked up in the peer's store as it is at that request; misses are skipped |
| Download.StoreBlocks | src/Servers/Node/main.cpp:136-139 | each downloaded block is put unvalidated, in order |
| Download.PutAllWithin | src/Servers/Node/main.cpp:136-139 | puts of blocks of one larger store fill in exactly their keys, with that store's values, in any order and with any repeats |
| Download.GrownPeerServes | src/Servers/Node/Blockchain/BlockchainManager.cpp:26-53 | a peer whose chain has grown still serves every block it announced |
| Download.AllAfterAnnounces | src/Servers/Node/Blockchain/BlockchainManager.cpp:11-25 | the headers reply announces exactly the blocks of the responder's chain above the requester's timestamp |
| Download.DownloadConverges | src/Servers/Node/main.cpp:130-140 | from a prefix of the responder's chain, the announced blocks, in any order, while the responder may accept more, make the local store equal to the responder's at header-request time |
| Download.InitialDownloadConverges | src/Servers/Node/main.cpp:116-140 | end to end: asking with `last()` and fetching what `get_all_after` answers makes the two stores equal |
| Download.DownloadKeepsChainIff | src/Servers/Node/main.cpp:130-140 | whatever blocks were downloaded, from whatever peer: the store afterwards holds a chain if and only if those of new hash are linked to the tip, and then one that extends the local chain |
| Download.PeerKeepsChainIff | src/Servers/Node/main.cpp:130-140 | blocks served by a peer with its own well-formed chain, on which no local hash stands for another block: the store holds a chain if and only if nothing is announced or the first announced block links to the local tip |
| Download.ExchangeKeepsChainIff | src/Servers/Node/main.cpp:116-140 | the same for the exchange that asks with `last()`; the store becomes the local chain followed by the peer's later blocks, unchanged when there are none |
| Safety.AcceptRefines | src/Servers/Node/Blockchain/BlockchainManager.cpp:54-131 | accepting or rejecting a block on the map is appending it to, or not touching, the one sequence the map stands for, which stays a chain |
| Safety.AcceptedIsStoredIff | src/Servers/Node/Blockchain/BlockchainManager.cpp:95-96 | a validated block lengthens the stored chain by itself if and only if its hash was new; otherwise the chain is left as it was |
| Safety.TakenHashIsDropped | src/Servers/Node/Blockchain/BlockchainManager.cpp:95-111 | a run from an empty database whose last block validates, is not stored, and still has its transaction spent |
| Safety.SpendAllMoves | src/Servers/Node/Blockchain/BlockchainManager.cpp:103-111 | a block's transactions leave the pool; those that were pooled and only those become spent, as the block has them; pool and spent stay disjoint and spent records verified |
| Safety.AcceptMoves | src/Servers/Node/Blockchain/BlockchainManager.cpp:95-111 | the same for a whole accepted block; queue and miner are untouched |
| Safety.StepKeepsChainIff | src/Servers/Node/Blockchain/BlockchainManager.cpp:54-131 | every event but a download leaves the store standing for one chain, a download if and only if its new blocks are linked; the previous chain is then a prefix |
| Safety.AcceptKeepsChain | src/Servers/Node/Blockchain/BlockchainManager.cpp:132-174 | the chain after a block event is the chain before it, with the block at its end or not |
| Safety.PrefixPeerConverges | src/Servers/Node/main.cpp:116-140 | a download from a peer whose chain extends the local one is linked and ends with exactly the peer's chain |
| Safety.PeerLinksUpIff | src/Servers/Node/main.cpp:116-140 | a download from a peer with its own chain is linked, and the store a chain, if and only if the peer has no later block or the first of them links to the local tip |
| Safety.ForkedPeerBreaksChain | src/Servers/Node/main.cpp:116-140 | a run from an empty database: one block received, then a download from a peer with a later block on the same parent; the store holds no chain any more |
| Safety.StepConserves | src/Servers/Node/TransactionPool/TransactionPoolManager.cpp:16-31 | every event keeps pool and spent disjoint, adds to their union exactly a received hash, and undoes no spent record |
| Safety.StepKeepsCarried | src/Servers/Node/TransactionPool/TransactionPool.cpp:70-72 | whatever the miner carries is pooled or spent, after every event |
| Safety.RunConserves | src/Servers/Node/Blockchain/BlockchainManager.cpp:95-111 | over every run pool and spent are disjoint, together hold exactly the old and received hashes, and spent records are verified and final; no assumption about blocks or downloads |
| Safety.RunKeepsCarried | src/Servers/Node/TransactionPool/TransactionPool.cpp:70-72 | over every run whatsoever the stores stay sound and what the miner carries stays on record |
| Safety.RunKeepsSound | src/Servers/Node/Blockchain/BlockchainManager.cpp:54-131 | over every run whose downloads are linked the store stands for one chain that only grows |
| Safety.LinkedRunIff | src/Servers/Node/Blockchain/BlockchainManager.cpp:54-131 | and those are exactly the runs in which it never stops standing for one |
| Safety.RunIsSound | src/Servers/Node/Blockchain/BlockchainManager.cpp:132-174 | both of these at once: every hash ever pooled is in exactly one of pool and spent |
| Safety.FreshRun | src/Servers/Node/Blockchain/Blockchain.cpp:38-48 | from an empty database, after every run: genesis first, one linear chain, `last()` its final block, and the hashes on record exactly the received ones |
| Spending.SpentIffPooled | src/Servers/Node/Blockchain/BlockchainManager.cpp:103-111 | a transaction of an accepted block is spent afterwards if and only if it was pooled |
| Spending.NeverAcceptedAgain | src/Servers/Node/Validator.h:64-71 | a transaction pooled at acceptance is in no block accepted later in the run, whatever happens in between |
| Spending.RepeatAcceptedIff | src/Servers/Node/Validator.h:64-71 | right after a block is stored, a next block repeating one of its transactions is accepted if and only if that transaction had not been pooled |
| Spending.SelfMinedSpendsAll | src/Servers/Node/Blockchain/BlockchainManager.cpp:132-174 | every transaction of a submitted block that validates is in the pool at that moment; processing takes it out and spends it, verified |
| Spending.SelfMinedIsFinal | src/Servers/Node/Blockchain/BlockchainManager.cpp:159-174 | over every run from an empty database, with any downloads: none of its transactions is in any block accepted later |
| Spending.QuietRunKeepsFaithful | src/Servers/Node/Miner.h:122-137 | with no block event, the miner keeps working on the tip, past its timestamp, on transactions still pooled |
| Spending.MinedValidatesIff | src/Servers/Node/Validator.h:52-74 | a block mined on `last().hash()` from pooled transactions validates if and only if its timestamp is past the tip's |
| Spending.MinerAgreesWithValidator | src/Servers/Node/Miner.h:122-137 | a block begun from a `wait` batch and submitted with no block event in between always validates, and its nonce is the least that wins |
| Spending.MinerExtendsChain | src/Servers/Node/Blockchain/BlockchainManager.cpp:132-161 | processing it then lengthens a chain of mined blocks by exactly that block |
| Spending.MinedBlockIsStored | src/Servers/Node/Blockchain/BlockchainManager.cpp:96 | on a chain of mined blocks a mined block that validates is never refused by `put` |
| Spending.RunKeepsMined | src/Servers/Node/Blockchain/BlockchainManager.cpp:54-131 | a run fed only mined blocks, its downloads linked, keeps the whole chain mined, the node's own block included |
| Spending.MinedRun | src/Servers/Node/Miner.h:78 | in every such run from an empty database the scan is the chain reversed and at most 16^60 blocks follow genesis |
| Cycle.RunKeepsFull | src/Servers/Node/Miner.h:122 | over every run a batch never exceeds five, and what is searched, judged or submitted has exactly five transactions |
| Cycle.SearchFindsIff | src/Servers/Node/Miner.h:128-137 | a search over a full batch finds a block if and only if some 64-bit nonce wins over the last block's hash; the block carries the batch, its root, the clock, the identity and the least such nonce, and nothing but the miner's state changes |
| Cycle.RejectedIsDropped | src/Servers/Node/Miner.h:192-199 | a peer's rejection discards the block: nothing changes but that the miner starts an empty batch |
| Cycle.AcceptedIsProcessed | src/Servers/Node/Miner.h:173-214 | acceptance or silence makes the node handle its block as it would a peer's, and collect again |
| Cycle.UnrejectedExtendsChain | src/Servers/Node/Miner.h:173-214 | a block found with no block event in between and not rejected lengthens the chain by exactly itself |
| Cycle.RejectedLeavesChain | src/Servers/Node/Miner.h:192-199 | rejected, it leaves chain, spent store and pool as they were |
| Cycle.RootIsNotChecked | src/Servers/Node/Validator.h:14-74 | another root, nonce or miner's name never changes the verdict on a block |
| Cycle.RunKeepsRooted | src/Servers/Node/Miner.h:56-64 | over every run whose outside blocks carry their own roots, every block stored since and every block of the miner does |
| Cycle.TwoRunsAgree | src/Servers/Node/Miner.h:56-92 | two nodes started empty and fed such mined blocks, without collisions: a shared hash sits at one height and the chains hold the same transactions up to it |
| Peers.RunKeepsBlocks | src/SharedModels/DBInterface.h:73-80 | over every run, with any downloads, no stored block is dropped or changed |
| Peers.RunServes | src/Servers/Node/Blockchain/BlockchainManager.cpp:26-53 | so a responder answers for every block it announced for the rest of its run |
| Peers.PeersConverge | src/Servers/Node/main.cpp:116-140 | two nodes: one whose chain is a prefix of the responder's downloads while the responder goes on; it ends with the responder's store at header-request time, and a prefix of the responder's chain after any linked run |
| Peers.PeersLinkUpIff | src/Servers/Node/main.cpp:116-140 | from any other running responder, hashes standing for one block each: the store still holds a chain if and only if the first later block links to the local tip, or there is none |
| Uniqueness.StoredOnceIff | src/Servers/Node/Blockchain/BlockchainManager.cpp:95-111 | a stored block leaves every hash from some height up on the chain once, and spent, if and only if its own are distinct and all pooled |
| Uniqueness.OnceRunIff | src/Servers/Node/Blockchain/BlockchainManager.cpp:54-131 | over every run after the download this holds at every point if and only if every stored block is of that kind when it is stored |
| Uniqueness.OwnBlocksOnce | src/Servers/Node/Miner.h:122-137 | a node fed only its own blocks has every transaction it mined on its chain once, as long as whatever is dequeued again has been spent |
| Uniqueness.UnpooledTwice | src/Servers/Node/Validator.h:64-71 | a run from an empty database that stores an unpooled transaction in two blocks |
| Uniqueness.PooledTwiceInOne | src/Servers/Node/Validator.h:64-71 | a run from an empty database that stores a pooled transaction twice in one block |
| Pool.WaitTakesFirstPooled | src/Servers/Node/TransactionPool/TransactionPool.cpp:45-75 | `wait(n)` consumes a prefix of the queue and returns its first n still-pooled entries in order, no entry more; an end marker met first yields no batch |
| Pool.WaitIsDequeues | src/Servers/Node/TransactionPool/TransactionPool.cpp:45-75 | the whole loop is a succession of the state machine's dequeue steps |
| Pool.TransactionPool.Add | src/Servers/Node/TransactionPool/TransactionPool.cpp:23-31 | true if and only if the hash was not pooled; only then is it pooled, and queued unless the queue refuses |
| Pool.TransactionPool.End | src/Servers/Node/TransactionPool/TransactionPool.h:27-29 | the end marker goes behind everything queued |
| Pool.TransactionPool.EnqueueStored | src/Servers/Node/TransactionPool/TransactionPool.h:31-43 | the whole pool is queued again, in key order, behind what is there |
| Pool.TransactionPool.Wait | src/Servers/Node/TransactionPool/TransactionPool.cpp:32-79 | the loop returns and leaves in the queue what `WaitTakesFirstPooled` is about |
| FullNode.FullNode.constructor | src/Servers/Node/main.cpp:172-215 | a new node with empty databases is in the state every run starts from |
| FullNode.FullNode.OnAddTransaction | src/Servers/Node/TransactionPool/TransactionPoolManager.cpp:5-46 | on the object's stores, exactly the state machine's step for a received transaction |
| FullNode.FullNode.OnSyncPoolRequest | src/Servers/Node/TransactionPool/TransactionPoolManager.cpp:47-72 | the whole pool goes to the asking peer, in key order, every part under the tag of the request; no state changes |
| FullNode.FullNode.OnBlockHeadersRequest | src/Servers/Node/Blockchain/BlockchainManager.cpp:11-25 | one reply with the request's tag and the headers after the requester's |
| FullNode.FullNode.OnBlockRequest | src/Servers/Node/Blockchain/BlockchainManager.cpp:26-53 | one reply with the request's tag: the block under the hash, or not found if and only if there is none |
| FullNode.FullNode.Validate | src/Servers/Node/Validator.h:52-74 | the early-return form of the checks yields the first failing check's state |
| FullNode.FullNode.MoveTransactions | src/Servers/Node/Blockchain/BlockchainManager.cpp:103-111 | the two stores end as `Safety.SpendAllMoves` describes |
| FullNode.FullNode.OnAddBlock | src/Servers/Node/Blockchain/BlockchainManager.cpp:54-131 | the accept step on the stores; a rejection reaches the sender alone with its reason, an acceptance the sender and then the observers |
| FullNode.FullNode.OnBlockMined | src/Servers/Node/Blockchain/BlockchainManager.cpp:132-228 | the accept step on the stores; the miner is always told, the network only of an accepted block |
| Messages.SenderHearsIff | src/Servers/Node/Blockchain/BlockchainManager.cpp:71-126 | a block's sender hears acceptance if and only if it validates, else the failing check; observers get it, settled, only when it validates; nobody hears anything else |
| FullNode.FullNode.Announce | src/Servers/Node/Blockchain/BlockchainManager.cpp:188-227 | each sender hears of its transaction before the recipient gets it, in block order |
| Messages.AnnouncedAt | src/Servers/Node/Blockchain/BlockchainManager.cpp:190-227 | the i-th transaction's sender is told it is verified and right after that its recipient gets it, once each |
| Messages.MinedReplyIs | src/Servers/Node/Blockchain/BlockchainManager.cpp:141-227 | the miner is told first and always; observers and then each sender and recipient hear, place by place in the block, only when it validates |
| FullNode.AnnouncedAreSpent | src/Servers/Node/Blockchain/BlockchainManager.cpp:205-211 | whoever this node tells that a transaction of its own block is verified finds it in the spent store, verified, and no longer in the pool |
| FullNode.FullNode.DequeueItem | src/Servers/Node/TransactionPool/TransactionPool.cpp:49-72 | one turn of the wait loop on the shared queue and the miner |
| FullNode.FullNode.BeginSearch | src/Servers/Node/Miner.h:128-137 | a search starts on the hash of the store's last block, and only with a full batch |
| FullNode.FullNode.EndSearch | src/Servers/Node/Miner.h:131-146 | the mined block, if the search ends, is up for judgement and broadcast to the full nodes |
| FullNode.FullNode.ReceiveVerdict | src/Servers/Node/Miner.h:173-214 | a rejection discards the block; an acceptance or silence submits it |
| FullNode.FullNode.ProcessSubmitted | src/Servers/Node/Miner.h:183-214 | the submitted block is validated and recorded, its outcome notified and announced as in `OnBlockMined`, and the miner collects again |
| FullNode.FullNode.AskForHeaders | src/Servers/Node/main.cpp:40-48 | every peer is asked, in order, for what follows the given header |
| FullNode.FullNode.AskForBlocks | src/Servers/Node/main.cpp:68-81 | the peer is asked for the block of every header, in order |
| FullNode.FullNode.InitialBlockDownload | src/Servers/Node/main.cpp:104-153 | on the ledger one download, of a longest reply's blocks, then one replay of the pool; the peers are asked with `last()` as it was before, the chosen one for each of its blocks, and a sync request goes out last |
| Messages.RequestsFetch | src/Servers/Node/main.cpp:68-100 | one request for each announced header goes to the chosen peer, and the answers are the blocks the download collects |
| Messages.RequestsDownload | src/Servers/Node/main.cpp:116-134 | asking a peer with `last()` and then for each header it answers brings exactly the blocks of a download from it |
| Queueing.RunFifo | src/Servers/Node/TransactionPool/TransactionPool.cpp:45-75 | over every run, what was queued and pushed since is what was popped followed by what is queued now, in order |
| Queueing.EnqueuedOnceIff | src/Servers/Node/TransactionPool/TransactionPool.cpp:23-31 | over every run each hash is queued at most once if and only if, whenever `enqueue_stored` runs, nothing queued before is still pooled |
| Queueing.StoreHashes | src/Servers/Node/TransactionPool/TransactionPool.h:31-43 | a replay queues each pooled hash once |
| Queueing.StillPooledWasBatched | src/Servers/Node/TransactionPool/TransactionPool.cpp:45-75 | over every run, a hash that was dequeued and is still pooled entered a batch |
| Queueing.BatchedOnceIff | src/Servers/Node/TransactionPool/TransactionPool.cpp:70-72 | over every run no hash enters batches twice if and only if every hash dequeued again is in the spent store at that moment |
| Queueing.CleanRepeatsNothing | src/Servers/Node/TransactionPool/TransactionPool.cpp:45-75 | runs with clean replays dequeue nothing twice, so they meet that condition |
| Queueing.CarriedIsTail | src/Servers/Node/Miner.h:122 | what the miner carries is the latest stretch of what was ever batched, in order |
| Queueing.BatchesAreDisjoint | src/Servers/Node/TransactionPool/TransactionPool.cpp:45-75 | in every such run, from any sound stores with nothing queued, a batch has no repeats and shares no hash with an earlier one |
| Queueing.OrdinaryStartBatchesOnce | src/Servers/Node/main.cpp:104-153 | a start that queues nothing before the initial download's replay batches no hash twice, whatever the node found in its pool |
| Queueing.ReplayRepeats | src/Servers/Node/TransactionPool/TransactionPool.h:31-43 | a transaction received before `enqueue_stored` is put twice into one batch |
| Tally.OperateBetween | src/Servers/Node/main.cpp:233-242 | the double loop's table holds exactly the recipients with a vote in the blocks scanned, each with its number of votes |
| Tally.CountBlock | src/Servers/Node/main.cpp:235-241 | one block's inner loop adds exactly that block's votes to the table |
| Tally.VotesCount | src/Servers/Node/main.cpp:237-240 | a recipient's votes are the in-range transactions addressed to it, and all votes together are all in-range transactions |
| Tally.VotesPermute | src/Servers/Node/main.cpp:234-242 | blocks in another order give the same votes |
| Tally.TallyOfChain | src/Servers/Node/main.cpp:234-242 | the fold in key order is the count over the abstract chain |
| Tally.VotesSplit | src/Servers/Node/main.cpp:237 | the tally of [b, e] is the tally of [b, m] plus that of [m + 1, e] |
| Tally.TallyGrows | src/Servers/Node/Blockchain/BlockchainManager.cpp:95-96 | accepting a block adds exactly its own votes if its hash is new, and nothing otherwise |
| Uniqueness.TallyCountsOnce | src/Servers/Node/main.cpp:233-242 | with every hash on the chain once, a recipient's count is the number of distinct transactions in range addressed to it |
| Tally.TransactionsIn | src/Servers/Node/main.cpp:259-268 | the counter is the number of matching scan entries in pool and spent store |
| Tally.CountsEachHashOnce | src/Servers/Node/main.cpp:261-268 | and, the stores being disjoint, the number of distinct hashes on record addressed to the identity |
| PoolSync.DeliveriesMerge | src/Servers/Node/TransactionPool/TransactionPoolManager.cpp:5-46 | deliveries from one keyed pool leave the receiver's own entries, and the sender's for each received hash it has neither pooled nor spent |
| PoolSync.SyncConverges | src/Servers/Node/TransactionPool/TransactionPoolManager.cpp:47-72 | a full sync reply in any order and with any repeats gives one and the same receiver pool, with every sender hash pooled or spent there, never both |
| Messages.SyncReplyIsPool | src/Servers/Node/TransactionPool/TransactionPoolManager.cpp:56-70 | the reply has one part for each pooled transaction, each for the asking peer under the request's tag |
| Messages.SyncRequestConverges | src/Servers/Node/TransactionPool/TransactionPoolManager.cpp:5-72 | from the request on: however its parts arrive, in any order and with repeats, the asking node's pool comes out the same and everything the other had pooled is pooled or spent there |
| Retry.RetryHandler.Retry | src/PeerManager/RetryHandler.cpp:6-16 | three failures counted: parked under its tag in place of an older one, count forgotten; fewer: queued again with one more |
| Retry.RetryHandler.OnSendPeerMessage | src/PeerManager/PeerManager.cpp:171-196 | the message is delivered if and only if there is a connection and its channel is open, and retried otherwise |
| Retry.SendsDeliver | src/PeerManager/PeerManager.cpp:186-194 | successful sends deliver the queue from its head, in order, each message as it was queued, and touch nothing else |
| Retry.FailuresRequeue | src/PeerManager/RetryHandler.cpp:12-15 | failed sends of messages below the limit put them behind the queue in order with one more counted |
| Retry.RetryHandler.DrainUnreachable | src/PeerManager/PeerManager.cpp:171-196 | with nobody reachable the queue drains, whichever way each send fails, in the number of attempts `DrainParksAll` counts |
| Retry.RetryHandler.OnDatachannelOpen | src/PeerManager/RetryHandler.cpp:17-38 | the scan loop queues the peer's parked messages in key order and removes exactly those |
| Retry.FailureUsesOne | src/PeerManager/RetryHandler.cpp:6-16 | each failed send lowers the total of attempts left by exactly one |
| Retry.DrainParksAll | src/PeerManager/RetryHandler.cpp:6-16 | with distinct tags a full outage takes exactly the total of attempts left, delivers nothing, empties the queue and parks every message, leaving other parked ones alone |
| Retry.ReplayIsPeers | src/PeerManager/RetryHandler.cpp:22-36 | a replay is exactly the peer's parked messages, each once, with count one |
| Retry.OpenKeepsSeparated | src/PeerManager/RetryHandler.cpp:17-38 | opening a channel loses and duplicates nothing, and leaves parked exactly the other peers' messages |
| Retry.OpenedPeerIsServed | src/PeerManager/RetryHandler.cpp:17-38 | when a peer's channel opens and the sends succeed, the queue and then all that was parked for the peer is delivered, in key order; the others' messages stay parked |
| Retry.RunConservesMessages | src/SharedModels/InternalMessage.h:130-156 | over every run with fresh tags, each sent message is in exactly one of queue, store and delivery, unaltered but for its count |
| Retry.OutageAfterRun | src/PeerManager/RetryHandler.cpp:6-16 | at any point of such a run an outage takes 4 - c attempts for each queued count c, and parks everything |
| Events.PromiseStore.Add | src/Event/PromiseStore.h:14-24 | a promise already pending under the tag is kept and the new one dropped |
| Events.PromiseStore.SetResult | src/Event/PromiseStore.h:32-42 | resolves and forgets the promise under the tag; the answer is false exactly when there was one |
| Events.EventQueue.CreateAwaitable | src/Event/EventQueue.h:55-58 | a promise with nothing queued |
| Events.EventQueue.SubmitEvent | src/Event/EventQueue.h:60-71 | the promise under the event's own tag, then the event behind everything queued |
| Events.EventQueue.Process | src/Event/EventQueue.h:73-102 | the oldest event, if any, resolves at most the promise under its key and is dispatched |
| Events.ResolvedAtMostOnce | src/Event/PromiseStore.h:32-42 | in every run, whatever the tags, no promise is resolved twice or is both resolved and pending |
| Events.ResolvedByFirstReply | src/Event/EventQueue.h:73-102 | in every run a pending promise stays pending until the first reply dispatched under its tag and is resolved by exactly that one; a string notification replies to its content, any other event to its tag, an internal message to nobody |
| Events.ResolvedByReplies | src/Event/EventQueue.h:80-97 | over every run, whatever is resolved is resolved by an event dispatched in it that is no internal message, and no resolution is undone |
| Events.SubmittedIsPendingIff | src/Event/EventQueue.h:60-71 | a submitted request's promise becomes pending if and only if its tag was free |
| Events.DroppedIsNeverResolved | src/Event/PromiseStore.h:19-22 | one submitted under a taken tag is resolved in no run |
| Events.DispatchIsFifo | src/Event/EventQueue.h:73-102 | over every run events are dispatched in the order they were queued, none lost |
| Events.DispatchIsRecorded | src/Event/EventQueue.h:82-94 | every event taken from the queue reaches the listeners, internal messages included |
| Events.HearsTheCountth | src/Event/EventQueue.h:109-145 | asked for n >= 1 events, the listener answers with exactly the n-th match, however many follow |
| Events.CountZeroHearsAnything | src/Event/EventQueue.h:128-136 | asked for none, it answers with the first event of the type even if the predicate rejects it |

## Left out

- WebRTC, WebSocket, signaling, peer negotiation and `wait_for_peers`: transport over libraries outside the repository; a connection and an open channel are boolean inputs, the peers' replies are arguments.
- Internals of LevelDB, SHA-256, the Merkle tree, eventpp and concurrencpp: a map, two uninterpreted functions, a FIFO queue and atomic steps. Database writes succeed.
- Thread interleavings: each handler is one step, and the miner's task is split at its suspension points. A miner that listens for `MinedBlockValidated` after queuing `BlockMined`, and a replay overlapping a new parking, are not modelled.
- `try_enqueue` refusing an entry is an input (`enqueued`); when and why the queue refuses is not modelled.
- Database.Store.Put: the tag is passed beside the value, where the source asks the value for it.
- JSON forms, except that a parked message loses its retry count; byte hashes and `std::hash`.
- Transaction types other than sending; the identity of a block's miner beyond its header field.
- Clocks: timestamps are arguments, natural numbers on which the modelled code only compares and prints. Integer width is modelled for the nonce alone; the `int` counters of the tally and the retries do not overflow here.
- Mining.MiningFunction: after 2^64 losing nonces the source wraps round and searches for ever, which the method reports as no result. A Merkle tree refusing a leaf that is not a hash is not modelled.
- Pool.TransactionPool.Wait: on an empty queue the source blocks, the method returns what it has collected.
- Mining.CommonPrefix: on timestamps of different decimal width it does not claim equal timestamps and nonces, because `Mining.SplitTimestamp` gives two chains that share a hash and not a timestamp.
- Uniqueness.OnceRunIff: for the blocks stored after the initial download; the transactions of downloaded blocks are not recorded as spent, so they can come again.
- Spending.MinerAgreesWithValidator: the clock is past the tip's timestamp whenever a search starts; `Spending.MinedValidatesIff` shows that the validator refuses the block otherwise.
- Spending.MinedRun: received and downloaded blocks are those whose hash is the digest of their own text, which the validator does not check; downloads are linked, as in `Safety.LinkedRunIff`.
- Retry.RunConservesMessages: messages that share a tag, as the parts of a pool-sync reply do, overwrite each other when parked and are not covered.
- Download.InitialDownloadConverges: local handlers are quiescent while the download runs; each request may meet a later state of the peer. As an event of a run, a download is its puts, in one step.
- FullNode.FullNode.InitialBlockDownload: at least one peer has answered, as `wait_for_peers` ensures; the replies to the final sync request are in `PoolSync`.
- Downloaded transactions are not recorded as spent, and there is no fork resolution or reorganisation; nothing is claimed about agreement between nodes beyond the common prefix.
- Liveness of mining and re-queuing after a rejected block: the code does not do the latter.
- Waiting for either of two event types (`any_event_of_type`), listing the hashes (`get_hashes`), counting a sender's pooled transactions (`TransactionsOutRequest`), searching a block (`contains_transaction`), the light node's wallet (a sender's own transactions and their status), the control node's menu, logging.
- Which peers a broadcast reaches: one message stands for it, addressed to the observers or to the full nodes.

/** The full node as an object: the handlers of both managers, the miner's task and the download. */
module FullNode {
  import opened Records
  import Database
  import Chain
  import Hashing
  import opened Validator
  import Mining
  import Blockchain
  import opened Download
  import opened Ledger
  import Safety
  import Spending
  import Pool

  /** What the node enqueues for other peers, and its notification to the miner. */
  datatype Outgoing =
    | BlockAccepted(receiver: string, header: BlockHeader)
    | BlockRejected(receiver: string, state: ValidationState)
    | BlockToObservers(block: Block)
    | MinedBlockValidated
    | TransactionStatusSet(receiver: string, hash: string, status: TransactionStatus)
    | TransactionSent(receiver: string, transaction: Transaction)
    | BlockHeadersResponse(receiver: string, tag: string, headers: seq<BlockHeader>)
    | BlockResponse(receiver: string, tag: string, block: Block)
    | BlockNotFoundResponse(receiver: string, tag: string)
    | PooledTransaction(receiver: string, tag: string, transaction: Transaction)
    | BlockToFullNodes(block: Block)
    | BlockHeadersRequest(receiver: string, last: BlockHeader)
    | BlockRequest(receiver: string, header: BlockHeader)
    | SyncPoolRequest

  /** What the sender of a block hears, and the observers with it. */
  function Reply(l: Ledger, block: Block, sender: string): seq<Outgoing> {
    var state := ValidateBlock(l.chain, l.spent, block);
    if state != Success then [BlockRejected(sender, state)]
    else [BlockAccepted(sender, block.header), BlockToObservers(Settled(block))]
  }

  function Announcements(transactions: seq<Transaction>): seq<Outgoing> {
    if |transactions| == 0 then []
    else
      var n := |transactions| - 1;
      var t := transactions[n];
      Announcements(transactions[..n])
        + [TransactionStatusSet(t.sender, t.hash, Verified), TransactionSent(t.recipient, t)]
  }

  function MinedReply(l: Ledger, block: Block): seq<Outgoing> {
    if ValidateBlock(l.chain, l.spent, block) != Success then [MinedBlockValidated]
    else [MinedBlockValidated, BlockToObservers(Settled(block))] + Announcements(Settled(block).transactions)
  }

  /** Every part of a sync reply carries the tag of the request. */
  function SyncReply(receiver: string, tag: string, transactions: seq<Transaction>): seq<Outgoing> {
    seq(|transactions|, i requires 0 <= i < |transactions| => PooledTransaction(receiver, tag, transactions[i]))
  }

  function HeaderRequests(peers: seq<string>, last: BlockHeader): seq<Outgoing> {
    seq(|peers|, i requires 0 <= i < |peers| => BlockHeadersRequest(peers[i], last))
  }

  function BlockRequests(peer: string, headers: seq<BlockHeader>): seq<Outgoing> {
    seq(|headers|, i requires 0 <= i < |headers| => BlockRequest(peer, headers[i]))
  }

  lemma {:induction false} AnnouncedHashes(transactions: seq<Transaction>)
    ensures forall m :: m in Announcements(transactions) && m.TransactionStatusSet? ==>
              m.hash in Hashes(transactions) && m.status == Verified
  {
    if |transactions| > 0 {
      var n := |transactions| - 1;
      AnnouncedHashes(transactions[..n]);
      assert transactions == transactions[..n] + [transactions[n]];
    }
  }

  /** Whoever is told by this node that a transaction is verified finds it in the spent store, verified. */
  lemma AnnouncedAreSpent(crypto: Hashing.Crypto, l: Ledger, m: Outgoing)
    requires Safety.Sound(crypto, l) && l.miner.Submitted?
    requires m in MinedReply(l, l.miner.block) && m.TransactionStatusSet?
    ensures m.hash in BlockMined(l).spent && BlockMined(l).spent[m.hash].status == m.status == Verified
    ensures m.hash !in BlockMined(l).pool
  {
    var b := l.miner.block;
    AnnouncedHashes(Settled(b).transactions);
    var t :| t in Settled(b).transactions && t.hash == m.hash;
    var i :| 0 <= i < |b.transactions| && Settled(b).transactions[i] == t;
    assert b.transactions[i] in b.transactions;
    Spending.SelfMinedSpendsAll(l, b.transactions[i]);
  }

  class FullNode {
    const crypto: Hashing.Crypto
    const blockchain: Blockchain.BlockStore
    const pool: Pool.TransactionPool
    const spent: Database.Store<Transaction>
    var miner: Miner
    var sent: seq<Outgoing>

    /** The three databases are three. */
    ghost predicate Valid() {
      && pool.transactions != spent
      && (pool.transactions as object) != (blockchain.blocks as object)
      && (spent as object) != (blockchain.blocks as object)
    }

    ghost function State(): Ledger
      reads this, blockchain.blocks, pool, pool.transactions, spent
    {
      Ledger(blockchain.blocks.db, pool.transactions.db, spent.db, pool.queue, miner)
    }

    constructor (crypto: Hashing.Crypto)
      ensures Valid() && this.crypto == crypto
      ensures State() == Fresh(crypto) && sent == []
      ensures fresh(blockchain.blocks) && fresh(pool) && fresh(pool.transactions) && fresh(spent)
    {
      var blocks := new Database.Store<Block>();
      var pooled := new Database.Store<Transaction>();
      this.crypto := crypto;
      blockchain := new Blockchain.BlockStore(blocks, crypto);
      pool := new Pool.TransactionPool(pooled);
      spent := new Database.Store<Transaction>();
      miner := Collecting([]);
      sent := [];
    }

    // ---- TransactionPoolManager ----

    method OnAddTransaction(t: Transaction, enqueued: bool)
      requires Valid()
      modifies pool, pool.transactions
      ensures State() == AddTransaction(old(State()), t, enqueued)
    {
      if ValidateTransaction(spent.db, t) != Success { return; }
      var _ := pool.Add(t, enqueued);
    }

    method OnSyncPoolRequest(sender: string, tag: string)
      modifies this`sent
      ensures State() == old(State())
      ensures sent == old(sent) + SyncReply(sender, tag, Database.Scan(pool.transactions.db))
    {
      var values := pool.transactions.Data();
      for i := 0 to |values|
        invariant sent == old(sent) + SyncReply(sender, tag, values[..i])
      {
        sent := sent + [PooledTransaction(sender, tag, values[i])];
        assert SyncReply(sender, tag, values[..i + 1])
            == SyncReply(sender, tag, values[..i]) + [PooledTransaction(sender, tag, values[i])];
      }
      assert values[..|values|] == values;
    }

    // ---- BlockchainManager ----

    method OnBlockHeadersRequest(sender: string, tag: string, last: BlockHeader)
      modifies this`sent
      ensures sent == old(sent) + [BlockHeadersResponse(sender, tag, Blockchain.AllAfter(blockchain.blocks.db, last))]
    {
      var headers := blockchain.GetAllAfter(last);
      sent := sent + [BlockHeadersResponse(sender, tag, headers)];
    }

    method OnBlockRequest(sender: string, tag: string, header: BlockHeader)
      modifies this`sent
      ensures header.hash in blockchain.blocks.db ==>
                sent == old(sent) + [BlockResponse(sender, tag, blockchain.blocks.db[header.hash])]
      ensures header.hash !in blockchain.blocks.db ==>
                sent == old(sent) + [BlockNotFoundResponse(sender, tag)]
    {
      var block := blockchain.blocks.Get(header.hash);
      if block.Some? {
        sent := sent + [BlockResponse(sender, tag, block.value)];
      } else {
        sent := sent + [BlockNotFoundResponse(sender, tag)];
      }
    }

    method Validate(block: Block) returns (state: ValidationState)
      ensures state == ValidateBlock(blockchain.blocks.db, spent.db, block)
    {
      var last := blockchain.Last();
      state := ValidateHeader(last.header, block);
      if state != Success { return; }
      for i := 0 to |block.transactions|
        invariant ValidateTransactions(spent.db, block.transactions)
               == ValidateTransactions(spent.db, block.transactions[i..])
      {
        state := ValidateTransaction(spent.db, block.transactions[i]);
        assert block.transactions[i..][1..] == block.transactions[i + 1..];
        if state != Success { return; }
      }
      return Success;
    }

    /** The loop both block handlers end with: from the pool to the spent store. */
    method MoveTransactions(transactions: seq<Transaction>)
      requires Valid()
      modifies pool.transactions, spent
      ensures (pool.transactions.db, spent.db) == SpendAll(old(pool.transactions.db), old(spent.db), transactions)
    {
      for i := 0 to |transactions|
        invariant (pool.transactions.db, spent.db)
               == SpendAll(old(pool.transactions.db), old(spent.db), transactions[..i])
      {
        assert transactions[..i + 1][..i] == transactions[..i];
        ghost var before := pool.transactions.db;
        var removed := pool.transactions.Remove(transactions[i].hash);
        if removed {
          var _ := spent.Put(transactions[i].hash, transactions[i]);
        } else {
          assert pool.transactions.db == before;
        }
      }
      assert transactions[..|transactions|] == transactions;
    }

    method OnAddBlock(block: Block, sender: string)
      requires Valid()
      modifies this`sent, blockchain.blocks, pool.transactions, spent
      ensures State() == AcceptBlock(old(State()), block)
      ensures sent == old(sent) + Reply(old(State()), block, sender)
    {
      var state := Validate(block);
      if state != Success {
        sent := sent + [BlockRejected(sender, state)];
        return;
      }
      var settled := SetTransactionsStatus(block, Verified);
      var _ := blockchain.blocks.Put(settled.Hash(), settled);
      MoveTransactions(settled.transactions);
      sent := sent + [BlockAccepted(sender, settled.header), BlockToObservers(settled)];
    }

    method OnBlockMined(block: Block)
      requires Valid()
      modifies this`sent, blockchain.blocks, pool.transactions, spent
      ensures State() == AcceptBlock(old(State()), block)
      ensures sent == old(sent) + MinedReply(old(State()), block)
    {
      var state := Validate(block);
      if state != Success {
        sent := sent + [MinedBlockValidated];
        return;
      }
      var settled := SetTransactionsStatus(block, Verified);
      var _ := blockchain.blocks.Put(settled.Hash(), settled);
      MoveTransactions(settled.transactions);
      sent := sent + [MinedBlockValidated, BlockToObservers(settled)];
      Announce(settled.transactions);
    }

    /** Each transaction's sender hears it is verified, and its recipient gets it. */
    method Announce(transactions: seq<Transaction>)
      modifies this`sent
      ensures sent == old(sent) + Announcements(transactions)
    {
      for i := 0 to |transactions|
        invariant sent == old(sent) + Announcements(transactions[..i])
      {
        assert transactions[..i + 1][..i] == transactions[..i];
        var t := transactions[i];
        sent := sent + [TransactionStatusSet(t.sender, t.hash, Verified)];
        sent := sent + [TransactionSent(t.recipient, t)];
      }
      assert transactions[..|transactions|] == transactions;
    }

    // ---- the miner's task, from one suspension point to the next ----

    method DequeueItem()
      modifies this`miner, pool
      ensures State() == Dequeue(old(State()))
    {
      if !miner.Collecting? || |miner.batch| == BATCH_SIZE || |pool.queue| == 0 { return; }
      var item := pool.queue[0];
      pool.queue := pool.queue[1..];
      if item.EndOfPool? {
        miner := Stopped;
      } else if pool.transactions.Get(item.transaction.hash).Some? {
        miner := Collecting(miner.batch + [item.transaction]);
      }
    }

    method BeginSearch(timestamp: nat)
      modifies this`miner
      ensures State() == StartMining(old(State()), timestamp)
    {
      if miner.Collecting? && |miner.batch| == BATCH_SIZE {
        var latest := blockchain.Last();
        miner := Searching(miner.batch, latest.Hash(), timestamp);
      }
    }

    /** The block found goes to every full node before the verdicts are awaited. */
    method EndSearch(identity: string)
      modifies this`miner, this`sent
      ensures State() == FinishMining(crypto, old(State()), identity)
      ensures sent == old(sent)
                + (if old(miner).Searching? && miner.Judging? then [BlockToFullNodes(miner.block)] else [])
    {
      if miner.Searching? {
        var block := Mining.MiningFunction(crypto, miner.previousHash, identity, miner.transactions, miner.timestamp);
        if block.Some? {
          miner := Judging(block.value);
          sent := sent + [BlockToFullNodes(block.value)];
        }
      }
    }

    method ReceiveVerdict(rejected: bool)
      modifies this`miner
      ensures State() == Verdict(old(State()), rejected)
    {
      if miner.Judging? {
        miner := if rejected then Collecting([]) else Submitted(miner.block);
      }
    }

    method ProcessSubmitted()
      requires Valid()
      modifies this, blockchain.blocks, pool.transactions, spent
      ensures State() == BlockMined(old(State()))
      ensures sent == old(sent) + (if old(miner).Submitted? then MinedReply(old(State()), old(miner).block) else [])
    {
      if miner.Submitted? {
        OnBlockMined(miner.block);
        miner := Collecting([]);
      }
    }

    // ---- main ----

    method AskForHeaders(peers: seq<string>, last: BlockHeader)
      modifies this`sent
      ensures sent == old(sent) + HeaderRequests(peers, last)
    {
      for i := 0 to |peers|
        invariant sent == old(sent) + HeaderRequests(peers[..i], last)
      {
        sent := sent + [BlockHeadersRequest(peers[i], last)];
        assert HeaderRequests(peers[..i + 1], last)
            == HeaderRequests(peers[..i], last) + [BlockHeadersRequest(peers[i], last)];
      }
      assert peers[..|peers|] == peers;
    }

    method AskForBlocks(peer: string, headers: seq<BlockHeader>)
      modifies this`sent
      ensures sent == old(sent) + BlockRequests(peer, headers)
    {
      for i := 0 to |headers|
        invariant sent == old(sent) + BlockRequests(peer, headers[..i])
      {
        sent := sent + [BlockRequest(peer, headers[i])];
        assert BlockRequests(peer, headers[..i + 1])
            == BlockRequests(peer, headers[..i]) + [BlockRequest(peer, headers[i])];
      }
      assert headers[..|headers|] == headers;
    }

    /**
     * The peers are asked for what follows `last`, `answers[i]` is the reply of `peers[i]`, and `views[i]`
     * the chosen peer's store when the block of header `i` is requested. On the ledger: one download, then
     * one replay of the pool.
     */
    method InitialBlockDownload(peers: seq<string>, answers: seq<Answer>, views: seq<map<string, Block>>)
      returns (ghost k: nat)
      requires Valid()
      requires |answers| == |peers| > 0 && forall a :: a in answers ==> |a.headers| <= |views|
      modifies this`sent, blockchain.blocks, pool
      ensures k < |answers| && IsFirstLongest(answers, k)
      ensures var headers := answers[k].headers;
              && State() == EnqueueStored(StoreDownloaded(old(State()), Fetch(views[..|headers|], headers)))
              && sent == old(sent) + HeaderRequests(peers, Chain.Latest(old(blockchain.blocks.db)).header)
                         + BlockRequests(answers[k].peer, headers) + [SyncPoolRequest]
    {
      var last := blockchain.Last();
      AskForHeaders(peers, last.header);
      var best := RequestHeaders(answers);
      k :| 0 <= k < |answers| && best == answers[k] && IsFirstLongest(answers, k);
      if |best.headers| > 0 {
        AskForBlocks(best.peer, best.headers);
        var blocks := DownloadBlocks(views[..|best.headers|], best.headers);
        StoreBlocks(blockchain.blocks, blocks);
      }
      pool.EnqueueStored();
      sent := sent + [SyncPoolRequest];
    }
  }
}

/** A full node's ledger as a state machine: its stores, its queue and its miner, one handler a step. */
module Ledger {
  import opened Records
  import Database
  import Chain
  import opened Hashing
  import Validator
  import Mining
  import Download

  datatype QueueItem = Queued(transaction: Transaction) | EndOfPool

  /** Where `Miner::task` stands: the states between its suspension points. */
  datatype Miner =
    | Collecting(batch: seq<Transaction>)
    | Searching(transactions: seq<Transaction>, previousHash: string, timestamp: nat)
    | Judging(block: Block)
    | Submitted(block: Block)
    | Stopped

  datatype Ledger = Ledger(
    chain: map<string, Block>,
    pool: map<string, Transaction>,
    spent: map<string, Transaction>,
    queue: seq<QueueItem>,
    miner: Miner)

  const BATCH_SIZE: nat := 5

  // ---- the handlers ----

  function AddTransaction(l: Ledger, t: Transaction, enqueued: bool): Ledger {
    if Validator.ValidateTransaction(l.spent, t) != Validator.Success || t.hash in l.pool then l
    else l.(pool := Database.PutNew(l.pool, t.hash, t), queue := if enqueued then l.queue + [Queued(t)] else l.queue)
  }

  /** The pool and the spent store after a block's transactions have moved. */
  function SpendAll(
    pool: map<string, Transaction>, spent: map<string, Transaction>, transactions: seq<Transaction>)
    : (map<string, Transaction>, map<string, Transaction>)
  {
    if |transactions| == 0 then (pool, spent)
    else
      var n := |transactions| - 1;
      var t := transactions[n];
      var (p, s) := SpendAll(pool, spent, transactions[..n]);
      if t.hash in p then (p - {t.hash}, Database.PutNew(s, t.hash, t)) else (p, s)
  }

  /** What `on_add_block` and `on_block_mined` do to the stores. */
  function AcceptBlock(l: Ledger, b: Block): Ledger {
    if Validator.ValidateBlock(l.chain, l.spent, b) != Validator.Success then l
    else
      var settled := Settled(b);
      var (p, s) := SpendAll(l.pool, l.spent, settled.transactions);
      l.(chain := Database.PutNew(l.chain, settled.Hash(), settled), pool := p, spent := s)
  }

  function QueuedAll(transactions: seq<Transaction>): seq<QueueItem> {
    seq(|transactions|, i requires 0 <= i < |transactions| => Queued(transactions[i]))
  }

  function EnqueueStored(l: Ledger): Ledger {
    l.(queue := l.queue + QueuedAll(Database.Scan(l.pool)))
  }

  /** One turn of the loop in `TransactionPool::wait`. On an empty queue it blocks. */
  function Dequeue(l: Ledger): Ledger {
    if !l.miner.Collecting? || |l.miner.batch| == BATCH_SIZE || |l.queue| == 0 then l
    else
      var rest := l.(queue := l.queue[1..]);
      match l.queue[0]
      case EndOfPool => rest.(miner := Stopped)
      case Queued(t) => if t.hash in l.pool then rest.(miner := Collecting(l.miner.batch + [t])) else rest
  }

  function StartMining(l: Ledger, timestamp: nat): Ledger {
    if l.miner.Collecting? && |l.miner.batch| == BATCH_SIZE then
      l.(miner := Searching(l.miner.batch, Chain.Latest(l.chain).Hash(), timestamp))
    else l
  }

  function FinishMining(crypto: Crypto, l: Ledger, identity: string): Ledger {
    if l.miner.Searching? then
      match Mining.Mined(crypto, l.miner.previousHash, identity, l.miner.transactions, l.miner.timestamp)
      case Some(b) => l.(miner := Judging(b))
      case None => l
    else l
  }

  /** A peer's rejection discards the block; an acceptance, or two seconds of silence, submits it. */
  function Verdict(l: Ledger, rejected: bool): Ledger {
    if l.miner.Judging? then l.(miner := if rejected then Collecting([]) else Submitted(l.miner.block)) else l
  }

  function BlockMined(l: Ledger): Ledger {
    if l.miner.Submitted? then AcceptBlock(l, l.miner.block).(miner := Collecting([])) else l
  }

  /** The puts at the end of the initial download, of whatever blocks it brought. */
  function StoreDownloaded(l: Ledger, blocks: seq<Block>): Ledger {
    l.(chain := Download.PutAll(l.chain, blocks))
  }

  datatype Event =
    | TransactionReceived(transaction: Transaction, enqueued: bool)
    | BlockReceived(block: Block)
    | StoredEnqueued
    | PoolEnded
    | ItemDequeued
    | MiningStarted(timestamp: nat)
    | MiningFinished(identity: string)
    | VerdictReceived(rejected: bool)
    | MinedProcessed
    | Downloaded(blocks: seq<Block>)

  function Step(crypto: Crypto, l: Ledger, e: Event): Ledger {
    match e
    case TransactionReceived(t, enqueued) => AddTransaction(l, t, enqueued)
    case BlockReceived(b) => AcceptBlock(l, b)
    case StoredEnqueued => EnqueueStored(l)
    case PoolEnded => l.(queue := l.queue + [EndOfPool])
    case ItemDequeued => Dequeue(l)
    case MiningStarted(timestamp) => StartMining(l, timestamp)
    case MiningFinished(identity) => FinishMining(crypto, l, identity)
    case VerdictReceived(rejected) => Verdict(l, rejected)
    case MinedProcessed => BlockMined(l)
    case Downloaded(blocks) => StoreDownloaded(l, blocks)
  }

  function Run(crypto: Crypto, l: Ledger, events: seq<Event>): Ledger {
    if |events| == 0 then l
    else Step(crypto, Run(crypto, l, events[..|events| - 1]), events[|events| - 1])
  }

  lemma RunNext(crypto: Crypto, l: Ledger, events: seq<Event>, e: Event)
    ensures Run(crypto, l, events + [e]) == Step(crypto, Run(crypto, l, events), e)
  {
    assert (events + [e])[..|events|] == events;
  }

  lemma RunTwo(crypto: Crypto, l: Ledger, a: Event, b: Event)
    ensures Run(crypto, l, [a, b]) == Step(crypto, Step(crypto, l, a), b)
  {
    RunNext(crypto, l, [], a);
    RunNext(crypto, l, [a], b);
    assert [] + [a] == [a] && [a] + [b] == [a, b];
  }

  lemma {:induction false} RunConcat(crypto: Crypto, l: Ledger, before: seq<Event>, after: seq<Event>)
    ensures Run(crypto, l, before + after) == Run(crypto, Run(crypto, l, before), after)
  {
    if |after| == 0 {
      assert before + after == before;
    } else {
      var init, e := after[..|after| - 1], after[|after| - 1];
      RunConcat(crypto, l, before, init);
      RunNext(crypto, l, before + init, e);
      ConcatLast(before, after);
    }
  }

  /** A node with an empty database: the genesis block and nothing else. */
  ghost function Fresh(crypto: Crypto): Ledger {
    Ledger(Chain.MapOf([Genesis(crypto)]), map[], map[], [], Collecting([]))
  }
}

/** The transaction pool: a store of pending transactions and the queue that feeds the miner. */
module Pool {
  import opened Records
  import Database
  import Hashing
  import opened Ledger

  datatype WaitOutcome =
    | Batch(transactions: seq<Transaction>)
    | Ended
    | Blocked(partial: seq<Transaction>)

  /** The outcome of `wait(n)` on a queue, and what it leaves in it. */
  function Waited(pool: map<string, Transaction>, queue: seq<QueueItem>, taken: seq<Transaction>, n: nat)
    : (WaitOutcome, seq<QueueItem>)
    requires |taken| <= n
    decreases |queue|
  {
    if |taken| == n then (Batch(taken), queue)
    else if |queue| == 0 then (Blocked(taken), queue)
    else
      match queue[0]
      case EndOfPool => (Ended, queue[1..])
      case Queued(t) => Waited(pool, queue[1..], if t.hash in pool then taken + [t] else taken, n)
  }

  /** The queue entries, in order, whose transactions are still pooled. */
  function StillPooled(pool: map<string, Transaction>, items: seq<QueueItem>): seq<Transaction> {
    if |items| == 0 then []
    else
      var rest := StillPooled(pool, items[1..]);
      if items[0].Queued? && items[0].transaction.hash in pool then [items[0].transaction] + rest else rest
  }

  /**
   * `wait(n)` consumes a prefix of the queue and returns its first `n` still-pooled entries in order,
   * stopping right after the last of them; an end marker met first ends it without a batch.
   */
  lemma {:induction false} WaitTakesFirstPooled(
    pool: map<string, Transaction>, queue: seq<QueueItem>, taken: seq<Transaction>, n: nat) returns (k: nat)
    requires |taken| <= n
    ensures k <= |queue| && Waited(pool, queue, taken, n).1 == queue[k..]
    ensures match Waited(pool, queue, taken, n).0
            case Batch(b) =>
              && |b| == n
              && b == taken + StillPooled(pool, queue[..k])
              && EndOfPool !in queue[..k]
              && (k > 0 ==> queue[k - 1].transaction.hash in pool)
            case Ended =>
              && k > 0 && queue[k - 1] == EndOfPool && EndOfPool !in queue[..k - 1]
              && |taken + StillPooled(pool, queue[..k - 1])| < n
            case Blocked(b) =>
              && k == |queue| && EndOfPool !in queue
              && b == taken + StillPooled(pool, queue) && |b| < n
  {
    if |taken| == n || |queue| == 0 {
      k := 0;
    } else if queue[0].EndOfPool? {
      k := 1;
    } else {
      var t := queue[0].transaction;
      var taken' := if t.hash in pool then taken + [t] else taken;
      var j := WaitTakesFirstPooled(pool, queue[1..], taken', n);
      k := j + 1;
      assert queue[1..][j..] == queue[k..];
      HeadFirst(pool, queue, k);
      if Waited(pool, queue, taken, n).0.Ended? {
        HeadFirst(pool, queue, j);
      } else if Waited(pool, queue, taken, n).0.Blocked? {
        assert queue[..|queue|] == queue && queue[1..][..j] == queue[1..];
      }
    }
  }

  lemma HeadFirst(pool: map<string, Transaction>, queue: seq<QueueItem>, k: nat)
    requires 0 < k <= |queue| && queue[0].Queued?
    ensures queue[..k] == [queue[0]] + queue[1..][..k - 1]
    ensures var t := queue[0].transaction;
            StillPooled(pool, queue[..k])
            == (if t.hash in pool then [t] else []) + StillPooled(pool, queue[1..][..k - 1])
  {
    assert queue[..k][1..] == queue[1..][..k - 1];
  }

  /** A whole `wait` is a succession of the ledger's dequeue steps. */
  lemma {:induction false} WaitIsDequeues(crypto: Hashing.Crypto, l: Ledger, taken: seq<Transaction>)
    returns (events: seq<Event>)
    requires l.miner == Collecting(taken) && |taken| <= BATCH_SIZE
    ensures forall e :: e in events ==> e == ItemDequeued
    ensures var (outcome, rest) := Waited(l.pool, l.queue, taken, BATCH_SIZE);
            Run(crypto, l, events) == l.(queue := rest, miner :=
              match outcome
              case Batch(b) => Collecting(b)
              case Ended => Stopped
              case Blocked(b) => Collecting(b))
    decreases |l.queue|
  {
    if |taken| == BATCH_SIZE || |l.queue| == 0 {
      events := [];
    } else {
      var next := Dequeue(l);
      assert Run(crypto, l, [ItemDequeued]) == next by { assert Run(crypto, l, []) == l; }
      if l.queue[0].EndOfPool? {
        events := [ItemDequeued];
      } else {
        var later := WaitIsDequeues(crypto, next, next.miner.batch);
        events := [ItemDequeued] + later;
        RunConcat(crypto, l, [ItemDequeued], later);
      }
    }
  }

  class TransactionPool {
    const transactions: Database.Store<Transaction>
    var queue: seq<QueueItem>

    constructor (database: Database.Store<Transaction>)
      ensures transactions == database && queue == []
    {
      transactions := database;
      queue := [];
    }

    /** The queue may refuse the entry; the transaction is pooled all the same. */
    method Add(t: Transaction, enqueued: bool) returns (added: bool)
      modifies this, transactions
      ensures added <==> t.hash !in old(transactions.db)
      ensures transactions.db == Database.PutNew(old(transactions.db), t.hash, t)
      ensures queue == if added && enqueued then old(queue) + [Queued(t)] else old(queue)
    {
      var pooled := transactions.Put(t.hash, t);
      if pooled {
        if enqueued { queue := queue + [Queued(t)]; }
        return true;
      }
      return false;
    }

    method End()
      modifies this
      ensures queue == old(queue) + [EndOfPool]
    {
      queue := queue + [EndOfPool];
    }

    method EnqueueStored()
      modifies this
      ensures queue == old(queue) + QueuedAll(Database.Scan(transactions.db))
    {
      var values := transactions.Data();
      for i := 0 to |values|
        invariant queue == old(queue) + QueuedAll(values[..i])
      {
        queue := queue + [Queued(values[i])];
        assert QueuedAll(values[..i + 1]) == QueuedAll(values[..i]) + [Queued(values[i])];
      }
      assert values[..|values|] == values;
    }

    /** `wait`, where a call that would block on the empty queue returns what it has. */
    method Wait(n: nat) returns (outcome: WaitOutcome)
      modifies this
      ensures (outcome, queue) == Waited(transactions.db, old(queue), [], n)
    {
      var taken: seq<Transaction> := [];
      while |taken| != n
        invariant |taken| <= n
        invariant Waited(transactions.db, old(queue), [], n) == Waited(transactions.db, queue, taken, n)
        decreases |queue|
      {
        if |queue| == 0 { return Blocked(taken); }
        var item := queue[0];
        queue := queue[1..];
        if item.EndOfPool? { return Ended; }
        if transactions.Get(item.transaction.hash).Some? {
          taken := taken + [item.transaction];
        }
      }
      return Batch(taken);
    }
  }
}

/** The queue between pool and miner over whole runs: first in, first out, and each hash mined once. */
module Queueing {
  import Keys
  import opened Records
  import opened Database
  import Hashing
  import Mining
  import opened Ledger
  import opened Safety

  // ---- what one step puts in, takes out, and adds to a batch ----

  function Pushed(l: Ledger, e: Event): seq<QueueItem> {
    match e
    case TransactionReceived(t, enqueued) =>
      if enqueued && t.hash !in l.spent && t.hash !in l.pool then [Queued(t)] else []
    case StoredEnqueued => QueuedAll(Scan(l.pool))
    case PoolEnded => [EndOfPool]
    case _ => []
  }

  predicate Dequeues(l: Ledger, e: Event) {
    e.ItemDequeued? && l.miner.Collecting? && |l.miner.batch| != BATCH_SIZE && |l.queue| > 0
  }

  function Popped(l: Ledger, e: Event): seq<QueueItem> {
    if Dequeues(l, e) then [l.queue[0]] else []
  }

  function Batched(l: Ledger, e: Event): seq<string> {
    if Dequeues(l, e) && l.queue[0].Queued? && l.queue[0].transaction.hash in l.pool
    then [l.queue[0].transaction.hash]
    else []
  }

  ghost function PushedIn(crypto: Hashing.Crypto, l: Ledger, events: seq<Event>): seq<QueueItem> {
    if |events| == 0 then []
    else
      var init := events[..|events| - 1];
      PushedIn(crypto, l, init) + Pushed(Run(crypto, l, init), events[|events| - 1])
  }

  ghost function PoppedIn(crypto: Hashing.Crypto, l: Ledger, events: seq<Event>): seq<QueueItem> {
    if |events| == 0 then []
    else
      var init := events[..|events| - 1];
      PoppedIn(crypto, l, init) + Popped(Run(crypto, l, init), events[|events| - 1])
  }

  /** The hashes that entered some batch, in order. */
  ghost function BatchedIn(crypto: Hashing.Crypto, l: Ledger, events: seq<Event>): seq<string> {
    if |events| == 0 then []
    else
      var init := events[..|events| - 1];
      BatchedIn(crypto, l, init) + Batched(Run(crypto, l, init), events[|events| - 1])
  }

  // ---- first in, first out ----

  lemma StepFifo(crypto: Hashing.Crypto, l: Ledger, e: Event)
    ensures l.queue + Pushed(l, e) == Popped(l, e) + Step(crypto, l, e).queue
  {
    match e
    case TransactionReceived(t, enqueued) =>
    case BlockReceived(b) => AcceptLeavesMiner(l, b);
    case MinedProcessed => if l.miner.Submitted? { AcceptLeavesMiner(l, l.miner.block); }
    case ItemDequeued => if Dequeues(l, e) { assert l.queue == [l.queue[0]] + l.queue[1..]; }
    case _ =>
  }

  /** What was queued and everything pushed since is what was popped, then what is queued now. */
  lemma {:induction false} RunFifo(crypto: Hashing.Crypto, l: Ledger, events: seq<Event>)
    ensures l.queue + PushedIn(crypto, l, events) == PoppedIn(crypto, l, events) + Run(crypto, l, events).queue
  {
    if |events| > 0 {
      var init, e := events[..|events| - 1], events[|events| - 1];
      var before := Run(crypto, l, init);
      RunFifo(crypto, l, init);
      StepFifo(crypto, before, e);
      Interchange(l.queue, PushedIn(crypto, l, init), PoppedIn(crypto, l, init), before.queue,
                  Pushed(before, e), Popped(before, e), Step(crypto, before, e).queue);
    }
  }

  // ---- each hash at most once ----

  function HashesIn(items: seq<QueueItem>): seq<string> {
    if |items| == 0 then []
    else
      var last := items[|items| - 1];
      HashesIn(items[..|items| - 1]) + (if last.Queued? then [last.transaction.hash] else [])
  }

  lemma HashesInNext(items: seq<QueueItem>, item: QueueItem)
    ensures HashesIn(items + [item]) == HashesIn(items) + (if item.Queued? then [item.transaction.hash] else [])
  {
    assert (items + [item])[..|items|] == items;
  }

  lemma HashesInOne(item: QueueItem)
    ensures HashesIn([item]) == if item.Queued? then [item.transaction.hash] else []
  {
    HashesInNext([], item);
    assert [] + [item] == [item];
  }

  lemma {:induction false} HashesInConcat(a: seq<QueueItem>, b: seq<QueueItem>)
    ensures HashesIn(a + b) == HashesIn(a) + HashesIn(b)
  {
    if |b| == 0 {
      assert a + b == a;
    } else {
      HashesInConcat(a, b[..|b| - 1]);
      HashesInNext(a + b[..|b| - 1], b[|b| - 1]);
      ConcatLast(a, b);
    }
  }

  /** Whenever the store is queued again, nothing queued before is still in it. */
  ghost predicate CleanReplays(crypto: Hashing.Crypto, l: Ledger, events: seq<Event>) {
    |events| == 0
    || (var init, e := events[..|events| - 1], events[|events| - 1];
        && CleanReplays(crypto, l, init)
        && (e.StoredEnqueued? ==> Apart(HashesIn(PushedIn(crypto, l, init)), Run(crypto, l, init).pool)))
  }

  ghost predicate Apart(hashes: seq<string>, pool: map<string, Transaction>) {
    forall h :: h in hashes ==> h !in pool
  }

  lemma {:induction false} PushedAreRecorded(crypto: Hashing.Crypto, l: Ledger, events: seq<Event>)
    requires StoresSound(l.pool, l.spent)
    ensures forall h :: h in HashesIn(PushedIn(crypto, l, events)) ==> h in Recorded(Run(crypto, l, events))
  {
    if |events| > 0 {
      var init, e := events[..|events| - 1], events[|events| - 1];
      var before := Run(crypto, l, init);
      PushedAreRecorded(crypto, l, init);
      RunConserves(crypto, l, init);
      StepConserves(crypto, before, e);
      if e.StoredEnqueued? { StoreHashes(before.pool); } else { PushedIsNew(crypto, before, e); }
      HashesInConcat(PushedIn(crypto, l, init), Pushed(before, e));
    }
  }

  lemma {:induction false} HashesOfQueued(transactions: seq<Transaction>)
    ensures HashesIn(QueuedAll(transactions)) == Mining.Leaves(transactions)
  {
    if |transactions| > 0 {
      var init, t := transactions[..|transactions| - 1], transactions[|transactions| - 1];
      HashesOfQueued(init);
      assert QueuedAll(transactions) == QueuedAll(init) + [Queued(t)];
      HashesInNext(QueuedAll(init), Queued(t));
      assert Mining.Leaves(transactions) == Mining.Leaves(init) + [t.hash];
    }
  }

  /** Queuing the store puts each pooled hash into the queue once. */
  lemma StoreHashes(pool: map<string, Transaction>)
    requires Keyed(pool)
    ensures NoRepeats(HashesIn(QueuedAll(Scan(pool))))
    ensures forall h :: h in HashesIn(QueuedAll(Scan(pool))) <==> h in pool
  {
    var ks := Keys.Sorted(pool.Keys);
    Keys.SortedKeys(pool.Keys);
    HashesOfQueued(Scan(pool));
    assert Mining.Leaves(Scan(pool)) == ks;
    forall i, j | 0 <= i < j < |ks| ensures ks[i] != ks[j] { Keys.LessAsymmetric(ks[i], ks[j]); }
  }

  /**
   * Over a run each hash is queued at most once exactly when every replay is clean: `add` queues only what
   * is nowhere on record, and `enqueue_stored` repeats exactly what was queued and is still pooled.
   */
  lemma {:induction false} EnqueuedOnceIff(crypto: Hashing.Crypto, l: Ledger, events: seq<Event>)
    requires StoresSound(l.pool, l.spent)
    ensures NoRepeats(HashesIn(PushedIn(crypto, l, events))) <==> CleanReplays(crypto, l, events)
  {
    if |events| > 0 {
      var init, e := events[..|events| - 1], events[|events| - 1];
      var before := Run(crypto, l, init);
      EnqueuedOnceIff(crypto, l, init);
      PushedAreRecorded(crypto, l, init);
      RunConserves(crypto, l, init);
      HashesInConcat(PushedIn(crypto, l, init), Pushed(before, e));
      NoRepeatsConcat(HashesIn(PushedIn(crypto, l, init)), HashesIn(Pushed(before, e)));
      if e.StoredEnqueued? { StoreHashes(before.pool); } else { PushedIsNew(crypto, before, e); }
    }
  }

  lemma PushedIsNew(crypto: Hashing.Crypto, l: Ledger, e: Event)
    requires !e.StoredEnqueued?
    ensures |HashesIn(Pushed(l, e))| <= 1
    ensures forall h :: h in HashesIn(Pushed(l, e)) ==> h !in Recorded(l) && h in Recorded(Step(crypto, l, e))
  {
    match e
    case TransactionReceived(t, enqueued) =>
      HashesInOne(Queued(t));
      assert t.hash in Recorded(AddTransaction(l, t, enqueued));
    case PoolEnded => HashesInOne(EndOfPool);
    case _ =>
  }

  /** Whatever entered a batch was popped for it. */
  lemma {:induction false} BatchedWerePopped(crypto: Hashing.Crypto, l: Ledger, events: seq<Event>)
    ensures forall h :: h in BatchedIn(crypto, l, events) ==> h in HashesIn(PoppedIn(crypto, l, events))
  {
    if |events| > 0 {
      var init, e := events[..|events| - 1], events[|events| - 1];
      var before := Run(crypto, l, init);
      BatchedWerePopped(crypto, l, init);
      HashesInConcat(PoppedIn(crypto, l, init), Popped(before, e));
      if Dequeues(before, e) { HashesInOne(before.queue[0]); }
    }
  }

  lemma PoppedOnce(crypto: Hashing.Crypto, l: Ledger, events: seq<Event>)
    requires StoresSound(l.pool, l.spent) && l.queue == [] && CleanReplays(crypto, l, events)
    ensures NoRepeats(HashesIn(PoppedIn(crypto, l, events)))
  {
    EnqueuedOnceIff(crypto, l, events);
    RunFifo(crypto, l, events);
    HashesInConcat(PoppedIn(crypto, l, events), Run(crypto, l, events).queue);
    assert l.queue + PushedIn(crypto, l, events) == PushedIn(crypto, l, events);
    NoRepeatsConcat(HashesIn(PoppedIn(crypto, l, events)), HashesIn(Run(crypto, l, events).queue));
  }

  /** Whatever was popped was pushed, so it is pooled or spent. */
  lemma PoppedAreRecorded(crypto: Hashing.Crypto, l: Ledger, events: seq<Event>)
    requires StoresSound(l.pool, l.spent) && l.queue == []
    ensures forall h :: h in HashesIn(PoppedIn(crypto, l, events)) ==> h in Recorded(Run(crypto, l, events))
  {
    PushedAreRecorded(crypto, l, events);
    RunFifo(crypto, l, events);
    HashesInConcat(PoppedIn(crypto, l, events), Run(crypto, l, events).queue);
    assert l.queue + PushedIn(crypto, l, events) == PushedIn(crypto, l, events);
  }

  /** A hash that was popped and is still pooled entered a batch. */
  lemma {:induction false} StillPooledWasBatched(crypto: Hashing.Crypto, l: Ledger, events: seq<Event>, h: string)
    requires StoresSound(l.pool, l.spent) && l.queue == []
    requires h in HashesIn(PoppedIn(crypto, l, events)) && h in Run(crypto, l, events).pool
    ensures h in BatchedIn(crypto, l, events)
  {
    if |events| > 0 {
      var init, e := events[..|events| - 1], events[|events| - 1];
      var before := Run(crypto, l, init);
      RunConserves(crypto, l, init);
      HashesInConcat(PoppedIn(crypto, l, init), Popped(before, e));
      if h in HashesIn(PoppedIn(crypto, l, init)) {
        PoppedAreRecorded(crypto, l, init);
        StepConserves(crypto, before, e);
        StillPooledWasBatched(crypto, l, init, h);
      } else {
        HashesInOne(before.queue[0]);
      }
    }
  }

  /** Whatever is popped a second time has been spent by then. */
  ghost predicate RepeatsAreSpent(crypto: Hashing.Crypto, l: Ledger, events: seq<Event>) {
    |events| == 0
    || (var init, e := events[..|events| - 1], events[|events| - 1];
        && RepeatsAreSpent(crypto, l, init)
        && SpentIfSeen(Run(crypto, l, init), e, HashesIn(PoppedIn(crypto, l, init))))
  }

  ghost predicate SpentIfSeen(l: Ledger, e: Event, seen: seq<string>) {
    forall h :: h in HashesIn(Popped(l, e)) && h in seen ==> h in l.spent
  }

  lemma NewlyBatchedIff(crypto: Hashing.Crypto, l: Ledger, init: seq<Event>, e: Event)
    requires StoresSound(l.pool, l.spent) && l.queue == []
    ensures var before := Run(crypto, l, init);
            SpentIfSeen(before, e, HashesIn(PoppedIn(crypto, l, init)))
            <==> forall h :: h in BatchedIn(crypto, l, init) ==> h !in Batched(before, e)
  {
    var before := Run(crypto, l, init);
    RunConserves(crypto, l, init);
    PoppedAreRecorded(crypto, l, init);
    BatchedWerePopped(crypto, l, init);
    if Dequeues(before, e) {
      HashesInOne(before.queue[0]);
      forall h | h in HashesIn(Popped(before, e)) && h in HashesIn(PoppedIn(crypto, l, init)) && h in before.pool
        ensures h in BatchedIn(crypto, l, init)
      {
        StillPooledWasBatched(crypto, l, init, h);
      }
    }
  }

  /** No hash enters two batches, nor one batch twice, exactly when every repeat in the queue is spent first. */
  lemma {:induction false} BatchedOnceIff(crypto: Hashing.Crypto, l: Ledger, events: seq<Event>)
    requires StoresSound(l.pool, l.spent) && l.queue == []
    ensures NoRepeats(BatchedIn(crypto, l, events)) <==> RepeatsAreSpent(crypto, l, events)
  {
    if |events| > 0 {
      var init, e := events[..|events| - 1], events[|events| - 1];
      BatchedOnceIff(crypto, l, init);
      NewlyBatchedIff(crypto, l, init, e);
      NoRepeatsConcat(BatchedIn(crypto, l, init), Batched(Run(crypto, l, init), e));
    }
  }

  /** With clean replays nothing is popped twice. */
  lemma {:induction false} CleanRepeatsNothing(crypto: Hashing.Crypto, l: Ledger, events: seq<Event>)
    requires StoresSound(l.pool, l.spent) && l.queue == [] && CleanReplays(crypto, l, events)
    ensures RepeatsAreSpent(crypto, l, events)
  {
    if |events| > 0 {
      var init, e := events[..|events| - 1], events[|events| - 1];
      CleanRepeatsNothing(crypto, l, init);
      PoppedOnce(crypto, l, events);
      HashesInConcat(PoppedIn(crypto, l, init), Popped(Run(crypto, l, init), e));
      NoRepeatsConcat(HashesIn(PoppedIn(crypto, l, init)), HashesIn(Popped(Run(crypto, l, init), e)));
    }
  }

  // ---- the batch in hand ----

  /** The miner's transactions are the latest to have entered a batch. */
  ghost predicate EndsWith<T>(s: seq<T>, tail: seq<T>) {
    |tail| <= |s| && s[|s| - |tail|..] == tail
  }

  lemma StepKeepsTail(crypto: Hashing.Crypto, l: Ledger, e: Event, s: seq<string>)
    requires EndsWith(s, Mining.Leaves(Carried(l.miner)))
    ensures EndsWith(s + Batched(l, e), Mining.Leaves(Carried(Step(crypto, l, e).miner)))
  {
    var l' := Step(crypto, l, e);
    match e
    case BlockReceived(b) => AcceptLeavesMiner(l, b); assert s + [] == s;
    case ItemDequeued =>
      if |Batched(l, e)| > 0 {
        var t := l.queue[0].transaction;
        var tail := Mining.Leaves(l.miner.batch);
        assert Mining.Leaves(l.miner.batch + [t]) == tail + [t.hash];
        assert (s + [t.hash])[|s| - |tail|..] == s[|s| - |tail|..] + [t.hash];
      } else {
        assert s + [] == s;
      }
    case _ => assert s + [] == s;
  }

  lemma {:induction false} CarriedIsTail(crypto: Hashing.Crypto, l: Ledger, events: seq<Event>)
    requires Carried(l.miner) == []
    ensures EndsWith(BatchedIn(crypto, l, events), Mining.Leaves(Carried(Run(crypto, l, events).miner)))
  {
    if |events| > 0 {
      var init, e := events[..|events| - 1], events[|events| - 1];
      CarriedIsTail(crypto, l, init);
      StepKeepsTail(crypto, Run(crypto, l, init), e, BatchedIn(crypto, l, init));
    }
  }

  /**
   * In every run of a node that starts with nothing queued, pool and spent store as it finds them, and
   * whose repeats are spent: the batch the miner works on has no repeats and shares no hash with any
   * batch before it.
   */
  lemma BatchesAreDisjoint(crypto: Hashing.Crypto, l: Ledger, events: seq<Event>)
    requires StoresSound(l.pool, l.spent) && l.queue == [] && Carried(l.miner) == []
    requires RepeatsAreSpent(crypto, l, events)
    ensures var batch := Mining.Leaves(Carried(Run(crypto, l, events).miner));
            var all := BatchedIn(crypto, l, events);
            && |batch| <= |all| && all == all[..|all| - |batch|] + batch
            && NoRepeats(all)
            && NoRepeats(batch)
            && forall h :: h in batch ==> h !in all[..|all| - |batch|]
  {
    BatchedOnceIff(crypto, l, events);
    CarriedIsTail(crypto, l, events);
    TailIsDisjoint(BatchedIn(crypto, l, events), Mining.Leaves(Carried(Run(crypto, l, events).miner)));
  }

  // ---- the ordinary start ----

  lemma {:induction false} CleanThrough(crypto: Hashing.Crypto, l: Ledger, before: seq<Event>, later: seq<Event>)
    requires CleanReplays(crypto, l, before) && StoredEnqueued !in later
    ensures CleanReplays(crypto, l, before + later)
  {
    if |later| == 0 {
      assert before + later == before;
    } else {
      var init, e := later[..|later| - 1], later[|later| - 1];
      assert e in later;
      CleanThrough(crypto, l, before, init);
      ConcatLast(before, later);
      assert (before + later)[..|before + later| - 1] == before + init;
    }
  }

  /**
   * The initial download replays the store once. When nothing has been queued by then, no hash is
   * batched twice for the rest of the run, whatever the node found in its pool.
   */
  lemma OrdinaryStartBatchesOnce(crypto: Hashing.Crypto, l: Ledger, before: seq<Event>, later: seq<Event>)
    requires StoresSound(l.pool, l.spent) && l.queue == [] && Carried(l.miner) == []
    requires HashesIn(PushedIn(crypto, l, before)) == [] && StoredEnqueued !in later
    ensures CleanReplays(crypto, l, before + [StoredEnqueued] + later)
    ensures NoRepeats(BatchedIn(crypto, l, before + [StoredEnqueued] + later))
  {
    EnqueuedOnceIff(crypto, l, before);
    var replayed := before + [StoredEnqueued];
    assert replayed[..|replayed| - 1] == before;
    CleanThrough(crypto, l, replayed, later);
    CleanRepeatsNothing(crypto, l, replayed + later);
    BatchedOnceIff(crypto, l, replayed + later);
  }

  lemma TailIsDisjoint<T>(s: seq<T>, tail: seq<T>)
    requires NoRepeats(s) && EndsWith(s, tail)
    ensures s == s[..|s| - |tail|] + tail
    ensures NoRepeats(tail)
    ensures forall x :: x in tail ==> x !in s[..|s| - |tail|]
  {
    var n := |s| - |tail|;
    assert forall i :: 0 <= i < |tail| ==> s[n + i] == tail[i];
    assert forall i :: 0 <= i < n ==> s[..n][i] == s[i];
  }

  lemma RunFour(crypto: Hashing.Crypto, l: Ledger, a: Event, b: Event, c: Event, d: Event)
    ensures Run(crypto, l, [a, b, c, d])
         == Step(crypto, Step(crypto, Step(crypto, Step(crypto, l, a), b), c), d)
  {
    assert [a] == [] + [a] && [a, b] == [a] + [b] && [a, b, c] == [a, b] + [c] && [a, b, c, d] == [a, b, c] + [d];
    RunNext(crypto, l, [], a);
    RunNext(crypto, l, [a], b);
    RunNext(crypto, l, [a, b], c);
    RunNext(crypto, l, [a, b, c], d);
  }

  /** With a replay it does fail: a transaction received before `enqueue_stored` is batched twice. */
  lemma ReplayRepeats(crypto: Hashing.Crypto, t: Transaction)
    ensures Run(crypto, Fresh(crypto), [TransactionReceived(t, true), StoredEnqueued, ItemDequeued, ItemDequeued]).miner
         == Collecting([t, t])
  {
    RunFour(crypto, Fresh(crypto), TransactionReceived(t, true), StoredEnqueued, ItemDequeued, ItemDequeued);
    ReplayQueuesTwice(Fresh(crypto), t);
  }

  lemma ReplayQueuesTwice(l: Ledger, t: Transaction)
    requires l.pool == map[] && l.spent == map[] && l.queue == []
    ensures var l' := EnqueueStored(AddTransaction(l, t, true));
            l'.queue == [Queued(t), Queued(t)] && l'.pool == map[t.hash := t] && l'.miner == l.miner
  {
    ScanIsAscending(map[t.hash := t], [t.hash]);
    assert ValuesAt(map[t.hash := t], [t.hash]) == [t];
  }
}

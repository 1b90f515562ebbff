/** Synchronising pools: what the reply to a `SyncPoolRequest` does at the node that asked. */
module PoolSync {
  import Records
  import opened Database
  import Hashing
  import opened Ledger
  import opened Safety

  /** The deliveries carry the sender's pool scan, each entry at least once, in any order. */
  ghost predicate Delivers(events: seq<Event>, sender: map<string, Records.Transaction>) {
    && (forall e :: e in events ==> e.TransactionReceived? && e.transaction in Scan(sender))
    && (forall t :: t in Scan(sender) ==> exists e :: e in events && e.TransactionReceived? && e.transaction == t)
  }

  /** The receiver's own entries, and the sender's for every received hash it has neither pooled nor spent. */
  ghost function Merged(l: Ledger, sender: map<string, Records.Transaction>, received: set<string>)
    : map<string, Records.Transaction>
    requires received <= sender.Keys
  {
    map k | k in l.pool.Keys + (received - l.spent.Keys) :: if k in l.pool then l.pool[k] else sender[k]
  }

  lemma ScanIsKeyed(sender: map<string, Records.Transaction>, t: Records.Transaction)
    requires Keyed(sender) && t in Scan(sender)
    ensures t.hash in sender && sender[t.hash] == t
  {
    ScanMembers(sender);
  }

  lemma ReceivedFromSender(events: seq<Event>, sender: map<string, Records.Transaction>)
    requires Keyed(sender)
    requires forall e :: e in events ==> e.TransactionReceived? && e.transaction in Scan(sender)
    ensures ReceivedIn(events) <= sender.Keys
  {
    forall h | h in ReceivedIn(events) ensures h in sender {
      var e :| e in events && e.TransactionReceived? && e.transaction.hash == h;
      ScanIsKeyed(sender, e.transaction);
    }
  }

  lemma {:induction false} DeliveriesMerge(
    crypto: Hashing.Crypto, l: Ledger, sender: map<string, Records.Transaction>, events: seq<Event>)
    requires Keyed(sender)
    requires forall e :: e in events ==> e.TransactionReceived? && e.transaction in Scan(sender)
    ensures ReceivedIn(events) <= sender.Keys
    ensures Run(crypto, l, events).pool == Merged(l, sender, ReceivedIn(events))
    ensures Run(crypto, l, events).spent == l.spent
  {
    ReceivedFromSender(events, sender);
    if |events| == 0 {
      assert ReceivedIn(events) == {};
    } else {
      var init, e := events[..|events| - 1], events[|events| - 1];
      DeliveriesMerge(crypto, l, sender, init);
      ReceivedLast(events);
      assert e in events;
      ScanIsKeyed(sender, e.transaction);
      DeliveryMerges(l, sender, ReceivedIn(init), e.transaction);
    }
  }

  lemma DeliveryMerges(
    l: Ledger, sender: map<string, Records.Transaction>, received: set<string>, t: Records.Transaction)
    requires received <= sender.Keys && t.hash in sender && sender[t.hash] == t
    ensures Merged(l, sender, received + {t.hash})
         == var before := Merged(l, sender, received);
            (if t.hash in l.spent || t.hash in before then before else before[t.hash := t])
  {
  }

  /**
   * Whatever the order and the repeats, a sync reply leaves the receiver with one and the same pool;
   * every hash the sender pooled is then pooled or spent at the receiver, never both.
   */
  lemma SyncConverges(crypto: Hashing.Crypto, l: Ledger, sender: map<string, Records.Transaction>, events: seq<Event>)
    requires StoresSound(l.pool, l.spent) && Keyed(sender) && Delivers(events, sender)
    ensures var l' := Run(crypto, l, events);
            && l'.pool == Merged(l, sender, sender.Keys)
            && l'.spent == l.spent
            && sender.Keys <= Recorded(l')
            && l'.pool.Keys !! l'.spent.Keys
  {
    DeliveriesMerge(crypto, l, sender, events);
    ScanMembers(sender);
    forall k | k in sender ensures k in ReceivedIn(events) {
      var e :| e in events && e.TransactionReceived? && e.transaction == sender[k];
      assert e.transaction.hash == k;
    }
    assert ReceivedIn(events) == sender.Keys;
    RunConserves(crypto, l, events);
  }
}

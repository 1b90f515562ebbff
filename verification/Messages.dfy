/** What the messages a node sends amount to at the nodes that get them. */
module Messages {
  import opened Records
  import opened Database
  import opened Chain
  import opened Hashing
  import opened Validator
  import opened Blockchain
  import opened Download
  import opened Ledger
  import opened Safety
  import opened FullNode
  import Keys
  import PoolSync

  // ---- pool synchronisation ----

  ghost function Parts(reply: seq<Outgoing>): set<Transaction> {
    set m | m in reply && m.PooledTransaction? :: m.transaction
  }

  ghost function Received(events: seq<Event>): set<Transaction> {
    set e | e in events && e.TransactionReceived? :: e.transaction
  }

  /** The deliveries are of the parts of a reply, each at least once, in any order. */
  ghost predicate Carries(events: seq<Event>, reply: seq<Outgoing>) {
    (forall e :: e in events ==> e.TransactionReceived?) && Received(events) == Parts(reply)
  }

  /** The reply to a sync request holds each pooled transaction in one part, for the asking peer, under its tag. */
  lemma SyncReplyIsPool(pool: map<string, Transaction>, peer: string, tag: string)
    ensures var reply := SyncReply(peer, tag, Scan(pool));
            && |reply| == |pool|
            && (forall m :: m in reply ==> m.PooledTransaction? && m.receiver == peer && m.tag == tag)
            && (forall t :: t in Scan(pool) <==> PooledTransaction(peer, tag, t) in reply)
  {
    var reply := SyncReply(peer, tag, Scan(pool));
    Keys.SortedKeys(pool.Keys);
    forall t | t in Scan(pool) ensures PooledTransaction(peer, tag, t) in reply {
      var i :| 0 <= i < |Scan(pool)| && Scan(pool)[i] == t;
      assert reply[i] == PooledTransaction(peer, tag, t);
    }
  }

  lemma ReplyDelivers(pool: map<string, Transaction>, peer: string, tag: string, events: seq<Event>)
    requires Carries(events, SyncReply(peer, tag, Scan(pool)))
    ensures PoolSync.Delivers(events, pool)
  {
    SyncReplyIsPool(pool, peer, tag);
    var reply := SyncReply(peer, tag, Scan(pool));
    forall e | e in events ensures e.transaction in Scan(pool) {
      assert e.transaction in Received(events) && e.transaction in Parts(reply);
      var m :| m in reply && m.PooledTransaction? && m.transaction == e.transaction;
      assert m == PooledTransaction(peer, tag, e.transaction);
    }
    forall t | t in Scan(pool) ensures exists e :: e in events && e.TransactionReceived? && e.transaction == t {
      assert PooledTransaction(peer, tag, t) in reply;
      assert t in Parts(reply) && t in Received(events);
    }
  }

  /**
   * From the request on: however the parts of the reply arrive, the asking node's pool comes out the same,
   * and every transaction the other node had pooled is then pooled or spent.
   */
  lemma SyncRequestConverges(
    crypto: Crypto, l: Ledger, other: Ledger, peer: string, tag: string, events: seq<Event>)
    requires StoresSound(l.pool, l.spent) && StoresSound(other.pool, other.spent)
    requires Carries(events, SyncReply(peer, tag, Scan(other.pool)))
    ensures var l' := Run(crypto, l, events);
            && l'.pool == PoolSync.Merged(l, other.pool, other.pool.Keys)
            && l'.spent == l.spent
            && other.pool.Keys <= Recorded(l')
            && l'.pool.Keys !! l'.spent.Keys
  {
    ReplyDelivers(other.pool, peer, tag, events);
    PoolSync.SyncConverges(crypto, l, other.pool, events);
  }

  // ---- what follows a received block ----

  /** The sender hears acceptance exactly when the block validates, and otherwise the failing check alone. */
  lemma SenderHearsIff(l: Ledger, b: Block, sender: string)
    ensures var reply, state := Reply(l, b, sender), ValidateBlock(l.chain, l.spent, b);
            && (BlockAccepted(sender, b.header) in reply <==> state == Success)
            && (forall s :: BlockRejected(sender, s) in reply <==> s == state && state != Success)
            && (forall x :: BlockToObservers(x) in reply <==> x == Settled(b) && state == Success)
            && (forall m :: m in reply ==> m.BlockToObservers? || (m.BlockAccepted? && m.receiver == sender)
                                           || (m.BlockRejected? && m.receiver == sender))
            && |reply| == (if state == Success then 2 else 1)
            && !reply[0].BlockToObservers?
  {
  }

  // ---- what follows a mined block ----

  /** Transaction by transaction: its sender is told it is verified, and then its recipient gets it. */
  lemma {:induction false} AnnouncedAt(transactions: seq<Transaction>, i: nat)
    requires i < |transactions|
    ensures var sent, t := Announcements(transactions), transactions[i];
            && |sent| == 2 * |transactions|
            && sent[2 * i] == TransactionStatusSet(t.sender, t.hash, Verified)
            && sent[2 * i + 1] == TransactionSent(t.recipient, t)
  {
    var n := |transactions| - 1;
    if n == 0 {
      assert transactions[..0] == [];
    } else if i < n {
      AnnouncedAt(transactions[..n], i);
    } else {
      AnnouncedAt(transactions[..n], 0);
    }
  }

  /**
   * The miner is told first, always and once. When the block validates, observers get it settled, and then
   * each transaction is announced as above, once for each place it has in the block; otherwise nothing is.
   */
  lemma MinedReplyIs(l: Ledger, b: Block)
    ensures var reply := MinedReply(l, b);
            && |reply| > 0 && reply[0] == MinedBlockValidated
            && (ValidateBlock(l.chain, l.spent, b) != Success ==> |reply| == 1)
            && (ValidateBlock(l.chain, l.spent, b) == Success ==>
                  && |reply| == 2 + 2 * |b.transactions|
                  && reply[1] == BlockToObservers(Settled(b))
                  && forall i :: 0 <= i < |b.transactions| ==>
                       var t := b.transactions[i];
                       && reply[2 + 2 * i] == TransactionStatusSet(t.sender, t.hash, Verified)
                       && reply[3 + 2 * i] == TransactionSent(t.recipient, t.(status := Verified)))
  {
    var ts := Settled(b).transactions;
    if |ts| == 0 {
      assert Announcements(ts) == [];
    } else {
      AnnouncedAt(ts, 0);
    }
    forall i | 0 <= i < |ts|
      ensures |Announcements(ts)| == 2 * |ts|
      ensures Announcements(ts)[2 * i] == TransactionStatusSet(ts[i].sender, ts[i].hash, Verified)
      ensures Announcements(ts)[2 * i + 1] == TransactionSent(ts[i].recipient, ts[i])
    {
      AnnouncedAt(ts, i);
    }
  }

  // ---- the requests of an initial download ----

  /** Each peer is asked once, in order, for what follows the header. */
  lemma HeaderRequestsAre(peers: seq<string>, last: BlockHeader)
    ensures |HeaderRequests(peers, last)| == |peers|
    ensures forall i :: 0 <= i < |peers| ==> HeaderRequests(peers, last)[i] == BlockHeadersRequest(peers[i], last)
  {
  }

  /** The answer to a request from a store, as `on_block_headers_request` and `on_block_request` give it. */
  function HeadersFor(m: map<string, Block>, request: Outgoing): seq<BlockHeader>
    requires request.BlockHeadersRequest?
  {
    AllAfter(m, request.last)
  }

  /** The blocks that come back for a sequence of block requests, the i-th answered from the i-th store. */
  function BlocksFor(views: seq<map<string, Block>>, requests: seq<Outgoing>): seq<Block>
    requires |views| == |requests| && forall m :: m in requests ==> m.BlockRequest?
  {
    if |requests| == 0 then []
    else
      var n := |requests| - 1;
      var before := BlocksFor(views[..n], requests[..n]);
      var h := requests[n].header.hash;
      if h in views[n] then before + [views[n][h]] else before
  }

  /** One request for each announced header, to the chosen peer; the answers are what `Fetch` collects. */
  lemma {:induction false} RequestsFetch(views: seq<map<string, Block>>, headers: seq<BlockHeader>, peer: string)
    requires |views| == |headers|
    ensures |BlockRequests(peer, headers)| == |headers|
    ensures forall i :: 0 <= i < |headers| ==> BlockRequests(peer, headers)[i] == BlockRequest(peer, headers[i])
    ensures BlocksFor(views, BlockRequests(peer, headers)) == Fetch(views, headers)
  {
    if |headers| > 0 {
      var n := |headers| - 1;
      RequestsFetch(views[..n], headers[..n], peer);
      assert BlockRequests(peer, headers)[..n] == BlockRequests(peer, headers[..n]);
    }
  }

  /** Asking peer `i` with `last`, and for each header it answers: the blocks are those of a download from it. */
  lemma RequestsDownload(
    m: map<string, Block>, peers: seq<string>, i: nat, d: seq<Block>, view: View, headers: seq<BlockHeader>)
    requires i < |peers|
    requires headers == HeadersFor(MapOf(d), HeaderRequests(peers, Latest(m).header)[i])
    ensures BlocksFor(Views(view, |headers|), BlockRequests(peers[i], headers)) == Downloads(m, d, view)
  {
    RequestsFetch(Views(view, |headers|), headers, peers[i]);
  }
}

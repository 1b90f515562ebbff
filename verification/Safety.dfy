/** What every run of the ledger keeps: one growing chain, and every transaction hash in one place. */
module Safety {
  import opened Records
  import Database
  import Growth
  import opened Chain
  import opened Hashing
  import opened Validator
  import opened Download
  import opened Ledger

  // ---- the abstract chain under one accepted block ----

  /** The same step on the abstract chain: a block that follows the tip goes on the end. */
  ghost function Append(c: seq<Block>, spent: map<string, Transaction>, b: Block): seq<Block>
    requires |c| > 0
  {
    if Follows(b, Tip(c)) && Hashes(b.transactions) !! spent.Keys && b.Hash() !in MapOf(c)
    then c + [Settled(b)]
    else c
  }

  /** Accepting a block on the hash-keyed map is appending to the sequence it stands for. */
  lemma AcceptRefines(genesis: Block, c: seq<Block>, l: Ledger, b: Block)
    requires WellFormed(genesis, c) && l.chain == MapOf(c)
    ensures WellFormed(genesis, Append(c, l.spent, b))
    ensures AcceptBlock(l, b).chain == MapOf(Append(c, l.spent, b))
  {
    ValidatesIff(genesis, c, l.spent, b);
    MapOfAppend(c, Settled(b));
    if Append(c, l.spent, b) != c { ExtendWellFormed(genesis, c, Settled(b)); }
  }

  /**
   * A block that passes validation is still not stored when its hash is taken: `put` refuses it
   * and nothing looks at the refusal. It is stored exactly when its hash is new.
   */
  lemma AcceptedIsStoredIff(genesis: Block, c: seq<Block>, l: Ledger, b: Block)
    requires WellFormed(genesis, c) && l.chain == MapOf(c)
    requires ValidateBlock(l.chain, l.spent, b) == Success
    ensures b.Hash() !in l.chain <==> AcceptBlock(l, b).chain == MapOf(c + [Settled(b)])
    ensures b.Hash() in l.chain ==> AcceptBlock(l, b).chain == l.chain
  {
    ValidatesIff(genesis, c, l.spent, b);
    MapOfAppend(c, Settled(b));
    MapOfMembers(c);
    if b.Hash() in l.chain {
      var i :| 0 <= i < |c| && c[i].Hash() == b.Hash();
      assert c[i].Timestamp() <= Tip(c).Timestamp() < Settled(b).Timestamp();
      assert MapOf(c)[b.Hash()] == c[i] && MapOf(c + [Settled(b)])[b.Hash()] == Settled(b);
    }
  }

  // ---- the pool and the spent store ----

  ghost predicate Keyed(m: map<string, Transaction>) {
    forall k :: k in m ==> m[k].hash == k
  }

  ghost predicate StoresSound(pool: map<string, Transaction>, spent: map<string, Transaction>) {
    && Keyed(pool)
    && Keyed(spent)
    && pool.Keys !! spent.Keys
    && forall k :: k in spent ==> spent[k].status == Verified
  }

  /** Everything `after` holds beyond `before` comes from `transactions`; what was there is untouched. */
  ghost predicate GrowsBy(
    before: map<string, Transaction>, after: map<string, Transaction>, transactions: seq<Transaction>)
  {
    && Database.Keeps(before, after)
    && (forall k :: k in after && k !in before ==> after[k] in transactions)
  }

  /** A block's transactions leave the pool; those that were pooled, and only those, become spent. */
  lemma {:induction false} SpendAllMoves(
    pool: map<string, Transaction>, spent: map<string, Transaction>, transactions: seq<Transaction>)
    requires StoresSound(pool, spent)
    requires forall t :: t in transactions ==> t.status == Verified
    ensures var (p, s) := SpendAll(pool, spent, transactions);
            && StoresSound(p, s)
            && p == pool - Hashes(transactions)
            && s.Keys == spent.Keys + pool.Keys * Hashes(transactions)
            && GrowsBy(spent, s, transactions)
  {
    if |transactions| > 0 {
      var n := |transactions| - 1;
      SpendAllMoves(pool, spent, transactions[..n]);
      HashesLast(transactions);
    }
  }

  lemma HashesLast(transactions: seq<Transaction>)
    requires |transactions| > 0
    ensures var n := |transactions| - 1;
            && Hashes(transactions) == Hashes(transactions[..n]) + {transactions[n].hash}
            && forall t :: t in transactions <==> t in transactions[..n] || t == transactions[n]
  {
    assert transactions == transactions[..|transactions| - 1] + [transactions[|transactions| - 1]];
  }

  lemma AcceptMoves(l: Ledger, b: Block)
    requires StoresSound(l.pool, l.spent)
    requires ValidateBlock(l.chain, l.spent, b) == Success
    ensures var l' := AcceptBlock(l, b);
            && StoresSound(l'.pool, l'.spent)
            && l'.pool == l.pool - Hashes(b.transactions)
            && l'.spent.Keys == l.spent.Keys + l.pool.Keys * Hashes(b.transactions)
            && GrowsBy(l.spent, l'.spent, Settled(b).transactions)
            && l'.queue == l.queue && l'.miner == l.miner
  {
    var ts := Settled(b).transactions;
    assert Hashes(ts) == Hashes(b.transactions) by {
      forall t | t in b.transactions ensures t.hash in Hashes(ts) {
        var i :| 0 <= i < |b.transactions| && b.transactions[i] == t;
        assert ts[i] in ts;
      }
    }
    SpendAllMoves(l.pool, l.spent, ts);
  }

  // ---- the invariant ----

  function Carried(miner: Miner): seq<Transaction> {
    match miner
    case Collecting(batch) => batch
    case Searching(transactions, _, _) => transactions
    case Judging(b) => b.transactions
    case Submitted(b) => b.transactions
    case Stopped => []
  }

  ghost function Recorded(l: Ledger): set<string> {
    l.pool.Keys + l.spent.Keys
  }

  ghost predicate Sound(crypto: Crypto, l: Ledger) {
    && IsChain(Genesis(crypto), l.chain)
    && StoresSound(l.pool, l.spent)
    && Hashes(Carried(l.miner)) <= Recorded(l)
  }

  ghost function ChainOf(crypto: Crypto, l: Ledger): seq<Block>
    requires IsChain(Genesis(crypto), l.chain)
  {
    SequenceOf(Genesis(crypto), l.chain)
  }

  /** The new blocks of a download are linked to the tip the node has. */
  predicate LinksUp(l: Ledger, e: Event) {
    e.Downloaded? ==> Growth.Linked(Latest(l.chain), NewBlocks(l.chain, e.blocks))
  }

  predicate LinkedRun(crypto: Crypto, l: Ledger, events: seq<Event>) {
    |events| == 0
    || (var n := |events| - 1;
        LinkedRun(crypto, l, events[..n]) && LinksUp(Run(crypto, l, events[..n]), events[n]))
  }

  lemma FreshIsSound(crypto: Crypto)
    ensures Sound(crypto, Fresh(crypto)) && ChainOf(crypto, Fresh(crypto)) == [Genesis(crypto)]
  {
    SequenceOfIs(Genesis(crypto), [Genesis(crypto)]);
  }

  ghost function ChainAfter(l: Ledger, e: Event): map<string, Block> {
    if e.BlockReceived? then AcceptBlock(l, e.block).chain
    else if e.MinedProcessed? then BlockMined(l).chain
    else if e.Downloaded? then StoreDownloaded(l, e.blocks).chain
    else l.chain
  }

  lemma StepChain(crypto: Crypto, l: Ledger, e: Event)
    ensures Step(crypto, l, e).chain == ChainAfter(l, e)
  {
  }

  /**
   * Every event but a download leaves the store standing for one chain; a download does exactly when its
   * new blocks are linked. The chain after the step extends the chain before it.
   */
  lemma StepKeepsChainIff(crypto: Crypto, l: Ledger, e: Event)
    requires IsChain(Genesis(crypto), l.chain)
    ensures IsChain(Genesis(crypto), Step(crypto, l, e).chain) <==> LinksUp(l, e)
    ensures LinksUp(l, e) ==> ChainOf(crypto, l) <= SequenceOf(Genesis(crypto), Step(crypto, l, e).chain)
  {
    StepChain(crypto, l, e);
    if e.BlockReceived? {
      AcceptKeepsChain(crypto, l, e.block);
    } else if e.MinedProcessed? {
      ProcessKeepsChain(crypto, l);
    } else if e.Downloaded? {
      LastIsTip(Genesis(crypto), ChainOf(crypto, l));
      DownloadKeepsChainIff(Genesis(crypto), ChainOf(crypto, l), e.blocks);
    }
  }

  lemma ProcessKeepsChain(crypto: Crypto, l: Ledger)
    requires IsChain(Genesis(crypto), l.chain)
    ensures IsChain(Genesis(crypto), BlockMined(l).chain)
    ensures ChainOf(crypto, l) <= ChainOf(crypto, BlockMined(l))
  {
    if l.miner.Submitted? { AcceptKeepsChain(crypto, l, l.miner.block); }
  }

  lemma AcceptKeepsChain(crypto: Crypto, l: Ledger, b: Block)
    requires IsChain(Genesis(crypto), l.chain)
    ensures IsChain(Genesis(crypto), AcceptBlock(l, b).chain)
    ensures ChainOf(crypto, AcceptBlock(l, b)) == Append(ChainOf(crypto, l), l.spent, b)
  {
    AcceptRefines(Genesis(crypto), ChainOf(crypto, l), l, b);
    SequenceOfIs(Genesis(crypto), Append(ChainOf(crypto, l), l.spent, b));
  }

  /** A download from a peer whose chain extends the local one ends with the peer's chain. */
  lemma PrefixPeerConverges(crypto: Crypto, l: Ledger, peer: seq<Block>, view: View)
    requires crypto.Valid() && IsChain(Genesis(crypto), l.chain)
    requires WellFormed(Genesis(crypto), peer) && ChainOf(crypto, l) <= peer && ServesThroughout(view, peer)
    ensures var e := Downloaded(Downloads(l.chain, peer, view));
            LinksUp(l, e) && Step(crypto, l, e).chain == MapOf(peer)
  {
    var e := Downloaded(Downloads(l.chain, peer, view));
    InitialDownloadConverges(crypto, ChainOf(crypto, l), peer, view);
    assert Step(crypto, l, e).chain == MapOf(peer);
    SequenceOfIs(Genesis(crypto), peer);
    StepKeepsChainIff(crypto, l, e);
  }

  /** From a peer with a chain of its own: exactly when the first block later than `last` links to the tip. */
  lemma PeerLinksUpIff(crypto: Crypto, l: Ledger, peer: seq<Block>, view: View, k: nat)
    requires crypto.Valid() && IsChain(Genesis(crypto), l.chain) && WellFormed(Genesis(crypto), peer)
    requires HashDetermines(ChainOf(crypto, l), peer) && ServesThroughout(view, peer) && FirstLater(l.chain, peer, k)
    ensures var e := Downloaded(Downloads(l.chain, peer, view));
            && (LinksUp(l, e) <==> Continues(ChainOf(crypto, l), peer, k))
            && (IsChain(Genesis(crypto), Step(crypto, l, e).chain) <==> Continues(ChainOf(crypto, l), peer, k))
            && Step(crypto, l, e).chain == MapOf(ChainOf(crypto, l) + peer[k..])
  {
    var e := Downloaded(Downloads(l.chain, peer, view));
    assert Step(crypto, l, e).chain == Download.PutAll(l.chain, e.blocks);
    assert IsChain(Genesis(crypto), Step(crypto, l, e).chain) <==> LinksUp(l, e) by { StepKeepsChainIff(crypto, l, e); }
    ExchangeKeepsChainIff(crypto, ChainOf(crypto, l), peer, view, k);
  }

  function ReceivedBy(e: Event): set<string> {
    if e.TransactionReceived? then {e.transaction.hash} else {}
  }

  /** The stores stay sound, hold the same hashes and the received ones, and unspend nothing. */
  ghost predicate Conserves(l: Ledger, l': Ledger, received: set<string>) {
    && StoresSound(l'.pool, l'.spent)
    && Recorded(l') == Recorded(l) + received
    && Database.Keeps(l.spent, l'.spent)
  }

  lemma AcceptConserves(l: Ledger, b: Block)
    requires StoresSound(l.pool, l.spent)
    ensures Conserves(l, AcceptBlock(l, b), {})
  {
    if ValidateBlock(l.chain, l.spent, b) == Success { AcceptMoves(l, b); }
  }

  lemma AddConserves(l: Ledger, t: Transaction, enqueued: bool)
    requires StoresSound(l.pool, l.spent)
    ensures Conserves(l, AddTransaction(l, t, enqueued), {t.hash})
  {
  }

  /** Pool and spent store stay disjoint, nothing is forgotten, and nothing spent is ever undone. */
  lemma StepConserves(crypto: Crypto, l: Ledger, e: Event)
    requires StoresSound(l.pool, l.spent)
    ensures Conserves(l, Step(crypto, l, e), ReceivedBy(e))
  {
    if e.TransactionReceived? {
      AddConserves(l, e.transaction, e.enqueued);
    } else if e.BlockReceived? {
      AcceptConserves(l, e.block);
    } else if e.MinedProcessed? && l.miner.Submitted? {
      AcceptConserves(l, l.miner.block);
    } else {
      StepLeavesStores(crypto, l, e);
    }
  }

  lemma StepLeavesStores(crypto: Crypto, l: Ledger, e: Event)
    requires !e.TransactionReceived? && !e.BlockReceived?
    requires e.MinedProcessed? ==> !l.miner.Submitted?
    ensures Step(crypto, l, e).pool == l.pool && Step(crypto, l, e).spent == l.spent
  {
  }

  /** Whatever the miner carries was pooled once, so it is pooled or spent now. */
  lemma StepKeepsCarried(crypto: Crypto, l: Ledger, e: Event)
    requires StoresSound(l.pool, l.spent) && Hashes(Carried(l.miner)) <= Recorded(l)
    ensures Hashes(Carried(Step(crypto, l, e).miner)) <= Recorded(Step(crypto, l, e))
  {
    StepConserves(crypto, l, e);
    var l' := Step(crypto, l, e);
    match e
    case ItemDequeued =>
      if l'.miner.Collecting? && l'.miner != l.miner {
        var t := l.queue[0].transaction;
        assert Hashes(l.miner.batch + [t]) == Hashes(l.miner.batch) + {t.hash};
      }
    case BlockReceived(b) => AcceptLeavesMiner(l, b);
    case _ =>
  }

  lemma AcceptLeavesMiner(l: Ledger, b: Block)
    ensures AcceptBlock(l, b).miner == l.miner && AcceptBlock(l, b).queue == l.queue
  {
  }

  lemma StepKeepsSound(crypto: Crypto, l: Ledger, e: Event)
    requires Sound(crypto, l) && LinksUp(l, e)
    ensures Sound(crypto, Step(crypto, l, e))
  {
    StepKeepsChainIff(crypto, l, e);
    StepConserves(crypto, l, e);
    StepKeepsCarried(crypto, l, e);
  }

  ghost function ReceivedIn(events: seq<Event>): set<string> {
    set e | e in events && e.TransactionReceived? :: e.transaction.hash
  }

  lemma {:induction false} RunConserves(crypto: Crypto, l: Ledger, events: seq<Event>)
    requires StoresSound(l.pool, l.spent)
    ensures Conserves(l, Run(crypto, l, events), ReceivedIn(events))
  {
    if |events| > 0 {
      var n := |events| - 1;
      RunConserves(crypto, l, events[..n]);
      StepConserves(crypto, Run(crypto, l, events[..n]), events[n]);
      ReceivedLast(events);
    }
  }

  lemma ReceivedLast(events: seq<Event>)
    requires |events| > 0
    ensures ReceivedIn(events) == ReceivedIn(events[..|events| - 1]) + ReceivedBy(events[|events| - 1])
  {
    assert events == events[..|events| - 1] + [events[|events| - 1]];
  }

  lemma {:induction false} RunKeepsCarried(crypto: Crypto, l: Ledger, events: seq<Event>)
    requires StoresSound(l.pool, l.spent) && Hashes(Carried(l.miner)) <= Recorded(l)
    ensures var l' := Run(crypto, l, events);
            StoresSound(l'.pool, l'.spent) && Hashes(Carried(l'.miner)) <= Recorded(l')
  {
    if |events| > 0 {
      var n := |events| - 1;
      RunKeepsCarried(crypto, l, events[..n]);
      StepConserves(crypto, Run(crypto, l, events[..n]), events[n]);
      StepKeepsCarried(crypto, Run(crypto, l, events[..n]), events[n]);
    }
  }

  lemma {:induction false} RunKeepsChain(crypto: Crypto, l: Ledger, events: seq<Event>)
    requires IsChain(Genesis(crypto), l.chain) && LinkedRun(crypto, l, events)
    ensures IsChain(Genesis(crypto), Run(crypto, l, events).chain)
    ensures ChainOf(crypto, l) <= ChainOf(crypto, Run(crypto, l, events))
  {
    if |events| > 0 {
      var n := |events| - 1;
      RunKeepsChain(crypto, l, events[..n]);
      StepKeepsChainIff(crypto, Run(crypto, l, events[..n]), events[n]);
    }
  }

  lemma RunKeepsSound(crypto: Crypto, l: Ledger, events: seq<Event>)
    requires Sound(crypto, l) && LinkedRun(crypto, l, events)
    ensures Sound(crypto, Run(crypto, l, events))
    ensures ChainOf(crypto, l) <= ChainOf(crypto, Run(crypto, l, events))
  {
    RunKeepsChain(crypto, l, events);
    RunKeepsCarried(crypto, l, events);
  }

  ghost predicate ChainAfterFirst(crypto: Crypto, l: Ledger, events: seq<Event>, k: nat)
    requires k <= |events|
  {
    IsChain(Genesis(crypto), Run(crypto, l, events[..k]).chain)
  }

  lemma FirstOfInit(crypto: Crypto, l: Ledger, events: seq<Event>, n: nat)
    requires n <= |events|
    ensures forall k :: 0 <= k <= n ==>
              (ChainAfterFirst(crypto, l, events[..n], k) <==> ChainAfterFirst(crypto, l, events, k))
  {
    forall k | 0 <= k <= n
      ensures ChainAfterFirst(crypto, l, events[..n], k) <==> ChainAfterFirst(crypto, l, events, k)
    {
      assert events[..n][..k] == events[..k];
    }
  }

  /** A run in which the store never stops standing for a chain is one whose downloads are all linked. */
  lemma {:induction false} LinkedRunIff(crypto: Crypto, l: Ledger, events: seq<Event>)
    requires IsChain(Genesis(crypto), l.chain)
    ensures LinkedRun(crypto, l, events)
            <==> forall k :: 0 <= k <= |events| ==> ChainAfterFirst(crypto, l, events, k)
  {
    if |events| == 0 {
      assert events[..0] == [];
    } else {
      var n := |events| - 1;
      LinkedRunIff(crypto, l, events[..n]);
      FirstOfInit(crypto, l, events, n);
      LastLinks(crypto, l, events);
    }
  }

  lemma LastLinks(crypto: Crypto, l: Ledger, events: seq<Event>)
    requires |events| > 0
    ensures var n := |events| - 1;
            ChainAfterFirst(crypto, l, events, n) ==>
              (ChainAfterFirst(crypto, l, events, n + 1) <==> LinksUp(Run(crypto, l, events[..n]), events[n]))
  {
    var n := |events| - 1;
    assert events[..n + 1] == events;
    if ChainAfterFirst(crypto, l, events, n) { StepKeepsChainIff(crypto, Run(crypto, l, events[..n]), events[n]); }
  }

  /**
   * Every run: the store stands for one chain that only grows; every hash recorded before or received
   * since is pooled or spent and never both; spent records are verified and final.
   */
  lemma RunIsSound(crypto: Crypto, l: Ledger, events: seq<Event>)
    requires Sound(crypto, l) && LinkedRun(crypto, l, events)
    ensures var l' := Run(crypto, l, events);
            && Sound(crypto, l')
            && ChainOf(crypto, l) <= ChainOf(crypto, l')
            && l'.pool.Keys !! l'.spent.Keys
            && l'.pool.Keys + l'.spent.Keys == l.pool.Keys + l.spent.Keys + ReceivedIn(events)
            && Database.Keeps(l.spent, l'.spent)
  {
    RunKeepsSound(crypto, l, events);
    RunConserves(crypto, l, events);
  }

  /** From an empty database: `last` is always the end of one chain that starts at genesis. */
  lemma FreshRun(crypto: Crypto, events: seq<Event>)
    requires LinkedRun(crypto, Fresh(crypto), events)
    ensures var l := Run(crypto, Fresh(crypto), events);
            && Sound(crypto, l)
            && WellFormed(Genesis(crypto), ChainOf(crypto, l))
            && l.chain == MapOf(ChainOf(crypto, l))
            && Latest(l.chain) == Tip(ChainOf(crypto, l))
            && l.pool.Keys + l.spent.Keys == ReceivedIn(events)
  {
    FreshIsSound(crypto);
    RunIsSound(crypto, Fresh(crypto), events);
    LastIsTip(Genesis(crypto), ChainOf(crypto, Run(crypto, Fresh(crypto), events)));
  }

  // ---- runs from an empty database that one would not expect ----

  lemma FirstBlockStored(crypto: Crypto, b: Block)
    requires Follows(b, Genesis(crypto)) && b.Hash() != Genesis(crypto).Hash() && b.transactions == []
    ensures Run(crypto, Fresh(crypto), [BlockReceived(b)]) == Fresh(crypto).(chain := MapOf([Genesis(crypto), b]))
    ensures WellFormed(Genesis(crypto), [Genesis(crypto), b])
  {
    var g, l := Genesis(crypto), Fresh(crypto);
    assert Settled(b) == b;
    assert Hashes(b.transactions) == {};
    MapOfMembers([g]);
    AcceptRefines(g, [g], l, b);
    assert Append([g], l.spent, b) == [g, b];
    ValidatesIff(g, [g], l.spent, b);
    assert AcceptBlock(l, b) == l.(chain := MapOf([g, b]));
    RunNext(crypto, l, [], BlockReceived(b));
    assert [] + [BlockReceived(b)] == [BlockReceived(b)];
    TwoBlocks(g, b);
  }

  /**
   * A block that names its own hash as its predecessor's, after one of that hash: it validates, is not
   * stored, and its transaction is spent.
   */
  lemma TakenHashIsDropped(crypto: Crypto, t: Transaction)
    requires crypto.Valid()
    ensures var g := Genesis(crypto);
            var first := Block(BlockHeader("0000", g.Hash(), "", "", g.Timestamp() + 1, 0), []);
            var second := Block(BlockHeader("0000", "0000", "", "", g.Timestamp() + 2, 0), [t]);
            var received := TransactionReceived(t, true);
            var l := Run(crypto, Fresh(crypto), [BlockReceived(first), received]);
            var l' := Run(crypto, Fresh(crypto), [BlockReceived(first), received, BlockReceived(second)]);
            && ValidateBlock(l.chain, l.spent, second) == Success
            && l'.chain == l.chain
            && t.hash in l'.spent
  {
    var g := Genesis(crypto);
    var first := Block(BlockHeader("0000", g.Hash(), "", "", g.Timestamp() + 1, 0), []);
    var second := Block(BlockHeader("0000", "0000", "", "", g.Timestamp() + 2, 0), [t]);
    var received := TransactionReceived(t, true);
    assert |g.Hash()| == 64 && |first.Hash()| == 4;
    FirstBlockStored(crypto, first);
    RunNext(crypto, Fresh(crypto), [BlockReceived(first)], received);
    RunNext(crypto, Fresh(crypto), [BlockReceived(first), received], BlockReceived(second));
    assert [BlockReceived(first)] + [received] == [BlockReceived(first), received];
    assert [BlockReceived(first), received] + [BlockReceived(second)]
        == [BlockReceived(first), received, BlockReceived(second)];
    RepeatedHash(g, first, second, t, Run(crypto, Fresh(crypto), [BlockReceived(first), received]));
  }

  lemma RepeatedHash(g: Block, first: Block, second: Block, t: Transaction, l: Ledger)
    requires WellFormed(g, [g, first]) && Follows(second, first) && second.Hash() == first.Hash()
    requires second.transactions == [t]
    requires l.chain == MapOf([g, first]) && l.pool == map[t.hash := t] && l.spent == map[]
    ensures ValidateBlock(l.chain, l.spent, second) == Success
    ensures AcceptBlock(l, second).chain == l.chain
    ensures t.hash in AcceptBlock(l, second).spent
  {
    MapOfMembers([g, first]);
    assert Tip([g, first]) == first && [g, first][1] == first;
    assert Hashes(second.transactions) == {t.hash};
    ValidatesIff(g, [g, first], l.spent, second);
    AcceptedIsStoredIff(g, [g, first], l, second);
    AcceptMoves(l, second);
  }

  /** Two blocks on one parent, the later one downloaded over the earlier: the store is no chain. */
  lemma ForkedPeerBreaksChain(crypto: Crypto, view: View)
    requires crypto.Valid()
    ensures var g := Genesis(crypto);
            var ours := Block(BlockHeader("00001", g.Hash(), "", "", g.Timestamp() + 1, 0), []);
            var theirs := Block(BlockHeader("00002", g.Hash(), "", "", g.Timestamp() + 2, 0), []);
            var l := Run(crypto, Fresh(crypto), [BlockReceived(ours)]);
            && WellFormed(g, [g, theirs])
            && l.chain == MapOf([g, ours])
            && (ServesThroughout(view, [g, theirs]) ==>
                  !IsChain(g, Step(crypto, l, Downloaded(Downloads(l.chain, [g, theirs], view))).chain))
  {
    var g := Genesis(crypto);
    var ours := Block(BlockHeader("00001", g.Hash(), "", "", g.Timestamp() + 1, 0), []);
    var theirs := Block(BlockHeader("00002", g.Hash(), "", "", g.Timestamp() + 2, 0), []);
    assert |g.Hash()| == 64 && |ours.Hash()| == |theirs.Hash()| == 5;
    assert ours.Hash()[4] != theirs.Hash()[4];
    FirstBlockStored(crypto, ours);
    TwoBlocks(g, theirs);
    if ServesThroughout(view, [g, theirs]) {
      TwoChildren(crypto, Run(crypto, Fresh(crypto), [BlockReceived(ours)]), ours, theirs, view);
    }
  }

  lemma TwoChildren(crypto: Crypto, l: Ledger, ours: Block, theirs: Block, view: View)
    requires crypto.Valid()
    requires var g := Genesis(crypto); WellFormed(g, [g, ours]) && WellFormed(g, [g, theirs])
    requires l.chain == MapOf([Genesis(crypto), ours]) && ServesThroughout(view, [Genesis(crypto), theirs])
    requires |ours.Hash()| != 64 && |theirs.Hash()| != 64
    requires ours.Hash() != theirs.Hash() && ours.Timestamp() < theirs.Timestamp()
    ensures !IsChain(Genesis(crypto),
                     Step(crypto, l, Downloaded(Downloads(l.chain, [Genesis(crypto), theirs], view))).chain)
  {
    var g := Genesis(crypto);
    var c, d := [g, ours], [g, theirs];
    assert c[0] == d[0] == g && c[1] == ours && d[1] == theirs;
    assert FollowsAt(d, 1);
    SequenceOfIs(g, c);
    LastIsTip(g, c);
    PeerLinksUpIff(crypto, l, d, view, 1);
  }
}

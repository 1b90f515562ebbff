/** When a transaction is on the chain, and so in the tally, only once. */
module Uniqueness {
  import Database
  import opened Records
  import opened Chain
  import opened Hashing
  import opened Validator
  import opened Mining
  import opened Ledger
  import opened Safety
  import opened Spending
  import opened Queueing
  import opened Tally

  function HashesOnChain(c: seq<Block>): seq<string> {
    Leaves(AllTransactions(c))
  }

  /** The blocks from height `k` up hold no hash twice, and all their hashes are spent. */
  ghost predicate OnceFrom(c: seq<Block>, k: nat, spent: map<string, Transaction>) {
    && k <= |c|
    && NoRepeats(HashesOnChain(c[k..]))
    && forall h :: h in HashesOnChain(c[k..]) ==> h in spent
  }

  /** The block holds no transaction twice, and only pooled ones. */
  ghost predicate FromPool(l: Ledger, b: Block) {
    NoRepeats(Leaves(b.transactions)) && Hashes(b.transactions) <= l.pool.Keys
  }

  /** The block is validated and put under a new hash. */
  predicate Stores(l: Ledger, b: Block) {
    ValidateBlock(l.chain, l.spent, b) == Success && b.Hash() !in l.chain
  }

  // ---- one block ----

  lemma LeavesConcat(a: seq<Transaction>, b: seq<Transaction>)
    ensures Leaves(a + b) == Leaves(a) + Leaves(b)
  {
  }

  lemma HashesOnChainNext(c: seq<Block>, k: nat, b: Block)
    requires k <= |c|
    ensures HashesOnChain((c + [Settled(b)])[k..]) == HashesOnChain(c[k..]) + Leaves(b.transactions)
  {
    var s := Settled(b);
    assert (c + [s])[k..] == c[k..] + [s];
    assert (c[k..] + [s])[..|c[k..]|] == c[k..];
    LeavesConcat(AllTransactions(c[k..]), s.transactions);
    assert Leaves(s.transactions) == Leaves(b.transactions);
  }

  lemma LeavesAreHashes(transactions: seq<Transaction>)
    ensures forall h :: h in Leaves(transactions) <==> h in Hashes(transactions)
  {
    forall h | h in Hashes(transactions) ensures h in Leaves(transactions) {
      var i :| 0 <= i < |transactions| && transactions[i].hash == h;
      assert Leaves(transactions)[i] == h;
    }
  }

  /** A stored block keeps every hash on the chain once exactly when its own are distinct and pooled. */
  lemma StoredOnceIff(genesis: Block, c: seq<Block>, k: nat, l: Ledger, b: Block)
    requires WellFormed(genesis, c) && l.chain == MapOf(c) && StoresSound(l.pool, l.spent)
    requires Stores(l, b) && OnceFrom(c, k, l.spent)
    ensures OnceFrom(c + [Settled(b)], k, AcceptBlock(l, b).spent) <==> FromPool(l, b)
  {
    var before, own := HashesOnChain(c[k..]), Leaves(b.transactions);
    AcceptMoves(l, b);
    ValidMeansUnspent(l, b);
    LeavesAreHashes(b.transactions);
    HashesOnChainNext(c, k, b);
    NoRepeatsConcat(before, own);
    assert forall h :: h in own ==> (h in AcceptBlock(l, b).spent <==> h in l.pool);
  }

  // ---- runs ----

  /** The block an event puts on the chain, if any. */
  function StoredBy(l: Ledger, e: Event): Option<Block> {
    match e
    case BlockReceived(b) => if Stores(l, b) then Some(b) else None
    case MinedProcessed => if l.miner.Submitted? && Stores(l, l.miner.block) then Some(l.miner.block) else None
    case _ => None
  }

  ghost predicate StoresFromPool(l: Ledger, e: Event) {
    StoredBy(l, e).Some? ==> FromPool(l, StoredBy(l, e).value)
  }

  ghost predicate FromPoolRun(crypto: Crypto, l: Ledger, events: seq<Event>) {
    |events| == 0
    || (var n := |events| - 1;
        FromPoolRun(crypto, l, events[..n]) && StoresFromPool(Run(crypto, l, events[..n]), events[n]))
  }

  ghost predicate NoDownload(events: seq<Event>) {
    forall e :: e in events ==> !e.Downloaded?
  }

  /** What one event makes of the abstract chain, downloads apart. */
  lemma StepAppends(crypto: Crypto, l: Ledger, e: Event)
    requires IsChain(Genesis(crypto), l.chain) && !e.Downloaded?
    ensures IsChain(Genesis(crypto), Step(crypto, l, e).chain)
    ensures ChainOf(crypto, Step(crypto, l, e))
         == ChainOf(crypto, l) + (if StoredBy(l, e).Some? then [Settled(StoredBy(l, e).value)] else [])
    ensures StoredBy(l, e).Some? ==> Step(crypto, l, e).spent == AcceptBlock(l, StoredBy(l, e).value).spent
  {
    StepChain(crypto, l, e);
    if e.BlockReceived? {
      AcceptAppends(crypto, l, e.block);
    } else if e.MinedProcessed? && l.miner.Submitted? {
      AcceptAppends(crypto, l, l.miner.block);
    }
  }

  lemma AcceptAppends(crypto: Crypto, l: Ledger, b: Block)
    requires IsChain(Genesis(crypto), l.chain)
    ensures IsChain(Genesis(crypto), AcceptBlock(l, b).chain)
    ensures ChainOf(crypto, AcceptBlock(l, b))
         == ChainOf(crypto, l) + (if Stores(l, b) then [Settled(b)] else [])
  {
    AcceptKeepsChain(crypto, l, b);
    ValidatesIff(Genesis(crypto), ChainOf(crypto, l), l.spent, b);
  }

  lemma StoringStepOnceIff(crypto: Crypto, l: Ledger, e: Event, k: nat)
    requires IsChain(Genesis(crypto), l.chain) && StoresSound(l.pool, l.spent) && !e.Downloaded?
    requires OnceFrom(ChainOf(crypto, l), k, l.spent) && StoredBy(l, e).Some?
    ensures IsChain(Genesis(crypto), Step(crypto, l, e).chain)
    ensures OnceFrom(ChainOf(crypto, Step(crypto, l, e)), k, Step(crypto, l, e).spent)
            <==> FromPool(l, StoredBy(l, e).value)
  {
    StepAppends(crypto, l, e);
    StoredOnceIff(Genesis(crypto), ChainOf(crypto, l), k, l, StoredBy(l, e).value);
  }

  lemma OtherStepStaysOnce(crypto: Crypto, l: Ledger, e: Event, k: nat)
    requires IsChain(Genesis(crypto), l.chain) && StoresSound(l.pool, l.spent) && !e.Downloaded?
    requires OnceFrom(ChainOf(crypto, l), k, l.spent) && StoredBy(l, e).None?
    ensures IsChain(Genesis(crypto), Step(crypto, l, e).chain)
    ensures OnceFrom(ChainOf(crypto, Step(crypto, l, e)), k, Step(crypto, l, e).spent)
  {
    StepAppends(crypto, l, e);
    assert Database.Keeps(l.spent, Step(crypto, l, e).spent) by { StepConserves(crypto, l, e); }
    OnceStays(ChainOf(crypto, l), k, l.spent, Step(crypto, l, e).spent);
  }

  lemma StepOnceIff(crypto: Crypto, l: Ledger, e: Event, k: nat)
    requires IsChain(Genesis(crypto), l.chain) && StoresSound(l.pool, l.spent) && !e.Downloaded?
    requires OnceFrom(ChainOf(crypto, l), k, l.spent)
    ensures IsChain(Genesis(crypto), Step(crypto, l, e).chain)
    ensures OnceFrom(ChainOf(crypto, Step(crypto, l, e)), k, Step(crypto, l, e).spent) <==> StoresFromPool(l, e)
  {
    if StoredBy(l, e).Some? {
      StoringStepOnceIff(crypto, l, e, k);
    } else {
      OtherStepStaysOnce(crypto, l, e, k);
    }
  }

  lemma OnceStays(c: seq<Block>, k: nat, spent: map<string, Transaction>, later: map<string, Transaction>)
    requires OnceFrom(c, k, spent) && Database.Keeps(spent, later)
    ensures OnceFrom(c, k, later)
  {
  }

  lemma {:induction false} RunIsChain(crypto: Crypto, l: Ledger, events: seq<Event>)
    requires IsChain(Genesis(crypto), l.chain) && NoDownload(events)
    ensures IsChain(Genesis(crypto), Run(crypto, l, events).chain)
  {
    if |events| > 0 {
      var n := |events| - 1;
      RunIsChain(crypto, l, events[..n]);
      assert events[n] in events;
      StepAppends(crypto, Run(crypto, l, events[..n]), events[n]);
    }
  }

  ghost predicate OnceAfterFirst(crypto: Crypto, l: Ledger, events: seq<Event>, n: nat, k: nat)
    requires n <= |events|
  {
    var l' := Run(crypto, l, events[..n]);
    IsChain(Genesis(crypto), l'.chain) && OnceFrom(ChainOf(crypto, l'), k, l'.spent)
  }

  ghost predicate OnceThroughout(crypto: Crypto, l: Ledger, events: seq<Event>, k: nat) {
    forall n :: 0 <= n <= |events| ==> OnceAfterFirst(crypto, l, events, n, k)
  }

  lemma ThroughoutNext(crypto: Crypto, l: Ledger, events: seq<Event>, k: nat)
    requires |events| > 0
    ensures var n := |events| - 1;
            OnceThroughout(crypto, l, events, k)
            <==> OnceThroughout(crypto, l, events[..n], k) && OnceAfterFirst(crypto, l, events, n + 1, k)
    ensures var n := |events| - 1;
            OnceThroughout(crypto, l, events[..n], k) ==> OnceAfterFirst(crypto, l, events, n, k)
  {
    var n := |events| - 1;
    forall i | 0 <= i <= n
      ensures OnceAfterFirst(crypto, l, events[..n], i, k) <==> OnceAfterFirst(crypto, l, events, i, k)
    {
      assert events[..n][..i] == events[..i];
    }
  }

  lemma LastIsOnceIff(crypto: Crypto, l: Ledger, events: seq<Event>, k: nat)
    requires IsChain(Genesis(crypto), l.chain) && StoresSound(l.pool, l.spent) && NoDownload(events) && |events| > 0
    ensures var n := |events| - 1;
            OnceAfterFirst(crypto, l, events, n, k) ==>
              (OnceAfterFirst(crypto, l, events, n + 1, k) <==> StoresFromPool(Run(crypto, l, events[..n]), events[n]))
  {
    var n := |events| - 1;
    assert events[..n + 1] == events && events[n] in events;
    RunConserves(crypto, l, events[..n]);
    if OnceAfterFirst(crypto, l, events, n, k) { StepOnceIff(crypto, Run(crypto, l, events[..n]), events[n], k); }
  }

  /**
   * After the initial download: over a run, the blocks stored since hold every hash once, and spent, at
   * every point exactly when each stored block has distinct transactions, all pooled at that moment.
   */
  lemma {:induction false} OnceRunIff(crypto: Crypto, l: Ledger, events: seq<Event>, k: nat)
    requires IsChain(Genesis(crypto), l.chain) && StoresSound(l.pool, l.spent) && NoDownload(events)
    requires OnceFrom(ChainOf(crypto, l), k, l.spent)
    ensures FromPoolRun(crypto, l, events) <==> OnceThroughout(crypto, l, events, k)
  {
    if |events| == 0 {
      assert events[..0] == [];
      assert OnceAfterFirst(crypto, l, events, 0, k);
    } else {
      OnceRunIff(crypto, l, events[..|events| - 1], k);
      ThroughoutNext(crypto, l, events, k);
      LastIsOnceIff(crypto, l, events, k);
    }
  }

  // ---- a node fed only its own blocks ----

  ghost predicate OwnBlocksOnly(events: seq<Event>) {
    forall e :: e in events ==> !e.BlockReceived? && !e.Downloaded?
  }

  lemma OwnBlockIsFromPool(crypto: Crypto, l: Ledger, init: seq<Event>)
    requires StoresSound(l.pool, l.spent) && l.queue == [] && Carried(l.miner) == []
    requires RepeatsAreSpent(crypto, l, init)
    ensures StoresFromPool(Run(crypto, l, init), MinedProcessed)
  {
    var before := Run(crypto, l, init);
    if StoredBy(before, MinedProcessed).Some? {
      var b := before.miner.block;
      BatchesAreDisjoint(crypto, l, init);
      RunKeepsCarried(crypto, l, init);
      ValidMeansUnspent(before, b);
    }
  }

  lemma {:induction false} OwnBlocksAreFromPool(crypto: Crypto, l: Ledger, events: seq<Event>)
    requires StoresSound(l.pool, l.spent) && l.queue == [] && Carried(l.miner) == []
    requires OwnBlocksOnly(events) && RepeatsAreSpent(crypto, l, events)
    ensures FromPoolRun(crypto, l, events)
  {
    if |events| > 0 {
      var n := |events| - 1;
      OwnBlocksAreFromPool(crypto, l, events[..n]);
      assert events[n] in events;
      if events[n].MinedProcessed? { OwnBlockIsFromPool(crypto, l, events[..n]); }
    }
  }

  /** Whatever it mines, every transaction is on its chain once, as long as repeats in its queue are spent. */
  lemma OwnBlocksOnce(crypto: Crypto, l: Ledger, events: seq<Event>)
    requires IsChain(Genesis(crypto), l.chain) && StoresSound(l.pool, l.spent)
    requires l.queue == [] && Carried(l.miner) == []
    requires OwnBlocksOnly(events) && RepeatsAreSpent(crypto, l, events)
    ensures var l' := Run(crypto, l, events);
            IsChain(Genesis(crypto), l'.chain) && OnceFrom(ChainOf(crypto, l'), |ChainOf(crypto, l)|, l'.spent)
  {
    var c := ChainOf(crypto, l);
    assert c[|c|..] == [];
    OwnBlocksAreFromPool(crypto, l, events);
    OnceRunIff(crypto, l, events, |c|);
    assert OnceAfterFirst(crypto, l, events, |events|, |c|);
    assert events[..|events|] == events;
  }

  // ---- the tally ----

  lemma {:induction false} KeptLeaves(transactions: seq<Transaction>, p: Transaction -> bool)
    requires NoRepeats(Leaves(transactions))
    ensures NoRepeats(Leaves(Filter(transactions, p)))
    ensures forall h :: h in Leaves(Filter(transactions, p)) ==> h in Leaves(transactions)
  {
    if |transactions| > 0 {
      var init, t := transactions[..|transactions| - 1], transactions[|transactions| - 1];
      assert transactions == init + [t];
      LeavesConcat(init, [t]);
      NoRepeatsConcat(Leaves(init), Leaves([t]));
      KeptLeaves(init, p);
      LeavesConcat(Filter(init, p), [t]);
      NoRepeatsConcat(Leaves(Filter(init, p)), Leaves([t]));
    }
  }

  lemma {:induction false} DistinctSize(s: seq<string>)
    requires NoRepeats(s)
    ensures |set x | x in s| == |s|
  {
    if |s| > 0 {
      var init, last := s[..|s| - 1], s[|s| - 1];
      assert s == init + [last];
      NoRepeatsConcat(init, [last]);
      DistinctSize(init);
      assert (set x | x in s) == (set x | x in init) + {last};
    }
  }

  /** With every hash on the chain once, a recipient's votes are the distinct transactions sent to it. */
  lemma TallyCountsOnce(genesis: Block, c: seq<Block>, begin: nat, end: nat, r: string)
    requires WellFormed(genesis, c) && NoRepeats(HashesOnChain(c))
    ensures Votes(Database.Scan(MapOf(c)), begin, end)[r]
         == |Hashes(Filter(AllTransactions(c), VoteFor(r, begin, end)))|
  {
    var kept := Filter(AllTransactions(c), VoteFor(r, begin, end));
    TallyOfChain(genesis, c, begin, end);
    VotesCount(c, begin, end, r);
    KeptLeaves(AllTransactions(c), VoteFor(r, begin, end));
    LeavesAreHashes(kept);
    DistinctSize(Leaves(kept));
    assert (set x | x in Leaves(kept)) == Hashes(kept);
  }

  // ---- runs in which a transaction is on the chain twice ----

  lemma AcceptUnpooled(genesis: Block, c: seq<Block>, l: Ledger, b: Block)
    requires WellFormed(genesis, c) && l.chain == MapOf(c) && l.pool == map[] && l.spent == map[]
    requires Follows(b, Tip(c)) && b.Hash() !in l.chain
    ensures AcceptBlock(l, b) == l.(chain := MapOf(c + [Settled(b)]))
    ensures WellFormed(genesis, c + [Settled(b)])
  {
    ValidatesIff(genesis, c, l.spent, b);
    AcceptRefines(genesis, c, l, b);
    AcceptMoves(l, b);
  }

  /** Two blocks received one after the other, each with the same unpooled transaction. */
  lemma UnpooledTwice(crypto: Crypto, t: Transaction)
    requires crypto.Valid()
    ensures var g := Genesis(crypto);
            var first := Block(BlockHeader("00001", g.Hash(), "", "", g.Timestamp() + 1, 0), [t]);
            var second := Block(BlockHeader("00002", "00001", "", "", g.Timestamp() + 2, 0), [t]);
            var l := Run(crypto, Fresh(crypto), [BlockReceived(first), BlockReceived(second)]);
            && l.chain == MapOf([g, Settled(first), Settled(second)])
            && WellFormed(g, [g, Settled(first), Settled(second)])
            && HashesOnChain([g, Settled(first), Settled(second)]) == [t.hash, t.hash]
  {
    var g, l := Genesis(crypto), Fresh(crypto);
    var first := Block(BlockHeader("00001", g.Hash(), "", "", g.Timestamp() + 1, 0), [t]);
    var second := Block(BlockHeader("00002", "00001", "", "", g.Timestamp() + 2, 0), [t]);
    assert |g.Hash()| == 64 && |first.Hash()| == |second.Hash()| == 5;
    assert first.Hash()[4] != second.Hash()[4];
    MapOfMembers([g]);
    FreshIsSound(crypto);
    AcceptUnpooled(g, [g], l, first);
    var c := [g, Settled(first)];
    assert [g] + [Settled(first)] == c;
    MapOfMembers(c);
    AcceptUnpooled(g, c, AcceptBlock(l, first), second);
    assert c + [Settled(second)] == [g, Settled(first), Settled(second)];
    RunTwo(crypto, l, BlockReceived(first), BlockReceived(second));
    HashesOnTwo(g, first, second, t);
  }

  lemma HashesOnTwo(g: Block, first: Block, second: Block, t: Transaction)
    requires g.transactions == [] && first.transactions == second.transactions == [t]
    ensures HashesOnChain([g, Settled(first), Settled(second)]) == [t.hash, t.hash]
  {
    HashesOnOne(g, first);
    HashesOnChainNext([g, Settled(first)], 0, second);
    assert ([g, Settled(first)] + [Settled(second)])[0..] == [g, Settled(first), Settled(second)];
    assert [g, Settled(first)][0..] == [g, Settled(first)];
  }

  /** One block with a pooled transaction twice: the validator does not compare its transactions. */
  lemma PooledTwiceInOne(crypto: Crypto, t: Transaction)
    requires crypto.Valid()
    ensures var g := Genesis(crypto);
            var b := Block(BlockHeader("00001", g.Hash(), "", "", g.Timestamp() + 1, 0), [t, t]);
            var l := Run(crypto, Fresh(crypto), [TransactionReceived(t, true), BlockReceived(b)]);
            && l.chain == MapOf([g, Settled(b)])
            && WellFormed(g, [g, Settled(b)])
            && HashesOnChain([g, Settled(b)]) == [t.hash, t.hash]
            && t.hash in l.spent
  {
    var g := Genesis(crypto);
    var b := Block(BlockHeader("00001", g.Hash(), "", "", g.Timestamp() + 1, 0), [t, t]);
    assert |g.Hash()| == 64 && |b.Hash()| == 5;
    FreshIsSound(crypto);
    RunTwo(crypto, Fresh(crypto), TransactionReceived(t, true), BlockReceived(b));
    AcceptTwice(g, AddTransaction(Fresh(crypto), t, true), b, t);
    HashesOnOne(g, b);
  }

  lemma AcceptTwice(g: Block, l: Ledger, b: Block, t: Transaction)
    requires WellFormed(g, [g]) && Follows(b, g) && b.Hash() != g.Hash() && b.transactions == [t, t]
    requires l.chain == MapOf([g]) && l.pool == map[t.hash := t] && l.spent == map[]
    ensures AcceptBlock(l, b).chain == MapOf([g, Settled(b)])
    ensures WellFormed(g, [g, Settled(b)])
    ensures t.hash in AcceptBlock(l, b).spent
  {
    MapOfMembers([g]);
    assert b.transactions[0] == t;
    assert t.hash in Hashes(b.transactions);
    ValidatesIff(g, [g], l.spent, b);
    AcceptRefines(g, [g], l, b);
    assert [g] + [Settled(b)] == [g, Settled(b)];
    AcceptMoves(l, b);
  }

  lemma HashesOnOne(g: Block, b: Block)
    requires g.transactions == []
    ensures HashesOnChain([g, Settled(b)]) == Leaves(b.transactions)
  {
    assert [g][..0] == [] && AllTransactions([g]) == [];
    HashesOnChainNext([g], 0, b);
    assert [g] + [Settled(b)] == [g, Settled(b)];
    assert [g][0..] == [g] && [g, Settled(b)][0..] == [g, Settled(b)];
  }
}

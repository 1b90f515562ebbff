/** When a transaction can enter a second block, and what the node's own blocks guarantee. */
module Spending {
  import opened Records
  import Database
  import opened Chain
  import Growth
  import opened Hashing
  import opened Validator
  import opened Mining
  import Download
  import opened Ledger
  import opened Safety

  lemma ValidMeansUnspent(l: Ledger, b: Block)
    requires ValidateBlock(l.chain, l.spent, b) == Success
    ensures Hashes(b.transactions) !! l.spent.Keys
  {
    NoneSpentIff(l.spent, b.transactions);
  }

  lemma SpentIsRefused(l: Ledger, b: Block, t: Transaction)
    requires t in b.transactions && t.hash in l.spent
    ensures ValidateBlock(l.chain, l.spent, b) != Success
  {
    NoneSpentIff(l.spent, b.transactions);
    assert t.hash in Hashes(b.transactions);
  }

  /** After a block is accepted, a transaction of it is spent exactly when it had been pooled. */
  lemma SpentIffPooled(l: Ledger, b: Block, t: Transaction)
    requires StoresSound(l.pool, l.spent)
    requires ValidateBlock(l.chain, l.spent, b) == Success && t in b.transactions
    ensures t.hash in AcceptBlock(l, b).spent <==> t.hash in l.pool
  {
    AcceptMoves(l, b);
    ValidMeansUnspent(l, b);
    assert t.hash in Hashes(b.transactions);
  }

  /** Once spent, a transaction is refused in every block for the rest of the run. */
  lemma SpentForever(crypto: Crypto, l: Ledger, later: seq<Event>, b: Block, t: Transaction)
    requires StoresSound(l.pool, l.spent) && t.hash in l.spent && t in b.transactions
    ensures var l' := Run(crypto, l, later);
            t.hash in l'.spent && ValidateBlock(l'.chain, l'.spent, b) != Success
  {
    RunConserves(crypto, l, later);
    SpentIsRefused(Run(crypto, l, later), b, t);
  }

  /** A transaction pooled when its block is accepted is in no block accepted later in the run. */
  lemma NeverAcceptedAgain(
    crypto: Crypto, l: Ledger, b: Block, t: Transaction, later: seq<Event>, b': Block, t': Transaction)
    requires StoresSound(l.pool, l.spent)
    requires ValidateBlock(l.chain, l.spent, b) == Success && t in b.transactions && t.hash in l.pool
    requires t' in b'.transactions && t'.hash == t.hash
    ensures var l' := Run(crypto, AcceptBlock(l, b), later);
            && t.hash in l'.spent
            && ValidateBlock(l'.chain, l'.spent, b') != Success
  {
    SpentIffPooled(l, b, t);
    AcceptMoves(l, b);
    SpentForever(crypto, AcceptBlock(l, b), later, b', t');
  }

  /**
   * Without the pool there is no protection: a block that follows the new tip and repeats one
   * transaction is accepted right away exactly when that transaction had not been pooled.
   */
  lemma RepeatAcceptedIff(genesis: Block, c: seq<Block>, l: Ledger, b: Block, t: Transaction, b': Block)
    requires WellFormed(genesis, c) && l.chain == MapOf(c) && StoresSound(l.pool, l.spent)
    requires ValidateBlock(l.chain, l.spent, b) == Success && b.Hash() !in l.chain && t in b.transactions
    requires Follows(b', b) && b'.transactions == [t]
    ensures var l' := AcceptBlock(l, b);
            ValidateBlock(l'.chain, l'.spent, b') == Success <==> t.hash !in l.pool
  {
    AcceptRefines(genesis, c, l, b);
    ValidatesIff(genesis, c, l.spent, b);
    SpentIffPooled(l, b, t);
    ValidatesIff(genesis, c + [Settled(b)], AcceptBlock(l, b).spent, b');
    assert Hashes([t]) == {t.hash};
  }

  // ---- the node's own blocks ----

  /** A submitted block that validates has all its transactions in the pool; processing spends them all. */
  lemma SelfMinedSpendsAll(l: Ledger, t: Transaction)
    requires StoresSound(l.pool, l.spent) && Hashes(Carried(l.miner)) <= Recorded(l) && l.miner.Submitted?
    requires ValidateBlock(l.chain, l.spent, l.miner.block) == Success
    requires t in l.miner.block.transactions
    ensures t.hash in l.pool
    ensures var l' := BlockMined(l);
            t.hash !in l'.pool && t.hash in l'.spent && l'.spent[t.hash].status == Verified
  {
    ValidMeansUnspent(l, l.miner.block);
    assert t.hash in Hashes(l.miner.block.transactions);
    AcceptMoves(l, l.miner.block);
  }

  lemma SelfMinedStaysSpent(crypto: Crypto, l: Ledger, later: seq<Event>, t: Transaction, b': Block, t': Transaction)
    requires StoresSound(l.pool, l.spent) && Hashes(Carried(l.miner)) <= Recorded(l) && l.miner.Submitted?
    requires ValidateBlock(l.chain, l.spent, l.miner.block) == Success && t in l.miner.block.transactions
    requires t' in b'.transactions && t'.hash == t.hash
    ensures t.hash in l.pool
    ensures var l' := Run(crypto, BlockMined(l), later);
            t.hash in l'.spent && ValidateBlock(l'.chain, l'.spent, b') != Success
  {
    SelfMinedSpendsAll(l, t);
    AcceptConserves(l, l.miner.block);
    SpentForever(crypto, BlockMined(l), later, b', t');
  }

  lemma RunThrough(crypto: Crypto, l: Ledger, before: seq<Event>, e: Event, later: seq<Event>)
    ensures Run(crypto, l, before + [e] + later) == Run(crypto, Step(crypto, Run(crypto, l, before), e), later)
  {
    RunConcat(crypto, l, before + [e], later);
    RunNext(crypto, l, before, e);
  }

  /** Over whole runs: no later block can carry a transaction of a self-mined block that validated. */
  lemma SelfMinedIsFinal(
    crypto: Crypto, before: seq<Event>, l: Ledger, later: seq<Event>, t: Transaction, b': Block, t': Transaction)
    requires l == Run(crypto, Fresh(crypto), before) && l.miner.Submitted?
    requires ValidateBlock(l.chain, l.spent, l.miner.block) == Success && t in l.miner.block.transactions
    requires t' in b'.transactions && t'.hash == t.hash
    ensures t.hash in l.pool
    ensures var l' := Run(crypto, Fresh(crypto), before + [MinedProcessed] + later);
            t.hash in l'.spent && ValidateBlock(l'.chain, l'.spent, b') != Success
  {
    RunKeepsCarried(crypto, Fresh(crypto), before);
    SelfMinedStaysSpent(crypto, l, later, t, b', t');
    RunThroughMined(crypto, before, l, later);
  }

  lemma RunThroughMined(crypto: Crypto, before: seq<Event>, l: Ledger, later: seq<Event>)
    requires l == Run(crypto, Fresh(crypto), before)
    ensures Run(crypto, Fresh(crypto), before + [MinedProcessed] + later) == Run(crypto, BlockMined(l), later)
  {
    RunThrough(crypto, Fresh(crypto), before, MinedProcessed, later);
  }

  // ---- miner and validator ----

  /** No block event, and a clock past the tip whenever a search starts. */
  ghost predicate Quiet(l: Ledger, e: Event) {
    && !e.BlockReceived? && !e.MinedProcessed? && !e.Downloaded?
    && (e.MiningStarted? ==> e.timestamp > Latest(l.chain).Timestamp())
  }

  ghost predicate QuietRun(crypto: Crypto, l: Ledger, events: seq<Event>) {
    |events| == 0
    || (var n := |events| - 1;
        QuietRun(crypto, l, events[..n]) && Quiet(Run(crypto, l, events[..n]), events[n]))
  }

  ghost predicate IsMinedOnTip(crypto: Crypto, tip: Block, b: Block) {
    exists identity, timestamp ::
      && timestamp > tip.Timestamp()
      && Mined(crypto, tip.Hash(), identity, b.transactions, timestamp) == Some(b)
  }

  /** The miner works on the tip, past its timestamp, with transactions that are still pooled. */
  ghost predicate Faithful(crypto: Crypto, l: Ledger) {
    && Hashes(Carried(l.miner)) <= l.pool.Keys
    && match l.miner
       case Searching(_, previousHash, timestamp) =>
         previousHash == Latest(l.chain).Hash() && timestamp > Latest(l.chain).Timestamp()
       case Judging(b) => IsMinedOnTip(crypto, Latest(l.chain), b)
       case Submitted(b) => IsMinedOnTip(crypto, Latest(l.chain), b)
       case _ => true
  }

  lemma QuietStepKeepsFaithful(crypto: Crypto, l: Ledger, e: Event)
    requires Faithful(crypto, l) && Quiet(l, e)
    ensures var l' := Step(crypto, l, e);
            Faithful(crypto, l') && l'.chain == l.chain && l'.spent == l.spent
  {
    match e
    case ItemDequeued => DequeueKeepsFaithful(crypto, l);
    case MiningFinished(identity) => FinishKeepsFaithful(crypto, l, identity);
    case _ =>
  }

  lemma DequeueKeepsFaithful(crypto: Crypto, l: Ledger)
    requires Faithful(crypto, l)
    ensures Faithful(crypto, Dequeue(l))
  {
    if Dequeue(l).miner.Collecting? && Dequeue(l).miner != l.miner {
      var t := l.queue[0].transaction;
      assert Hashes(l.miner.batch + [t]) == Hashes(l.miner.batch) + {t.hash};
    }
  }

  lemma FinishKeepsFaithful(crypto: Crypto, l: Ledger, identity: string)
    requires Faithful(crypto, l)
    ensures Faithful(crypto, FinishMining(crypto, l, identity))
  {
    var l' := FinishMining(crypto, l, identity);
    if l.miner.Searching? && l'.miner.Judging? {
      assert l'.miner.block.transactions == l.miner.transactions;
    }
  }

  lemma {:induction false} QuietRunKeepsFaithful(crypto: Crypto, l: Ledger, events: seq<Event>)
    requires Faithful(crypto, l) && QuietRun(crypto, l, events)
    ensures var l' := Run(crypto, l, events);
            Faithful(crypto, l') && l'.chain == l.chain && l'.spent == l.spent
  {
    if |events| > 0 {
      var n := |events| - 1;
      QuietRunKeepsFaithful(crypto, l, events[..n]);
      QuietStepKeepsFaithful(crypto, Run(crypto, l, events[..n]), events[n]);
    }
  }

  /**
   * Miner and validator agree: with no block event since the batch was begun, the block submitted
   * passes validation, whatever else happened, and its nonce is the least that wins.
   */
  lemma MinerAgreesWithValidator(crypto: Crypto, l: Ledger, events: seq<Event>)
    requires crypto.Valid() && Sound(crypto, l) && l.miner == Collecting([])
    requires QuietRun(crypto, l, events) && Run(crypto, l, events).miner.Submitted?
    ensures var l' := Run(crypto, l, events);
            var b := l'.miner.block;
            && ValidateBlock(l'.chain, l'.spent, b) == Success
            && MinedOn(crypto, b, Latest(l.chain).Hash())
            && forall n :: 0 <= n < b.header.nonce ==>
                 !Wins(crypto, Latest(l.chain).Hash(), b.header.merkleRoot, b.Timestamp(), n)
  {
    QuietRunKeepsFaithful(crypto, l, events);
    RunConserves(crypto, l, events);
    SubmittedValidates(crypto, Run(crypto, l, events));
  }

  /** The validator's one objection to a block mined on the tip from pooled transactions is the clock. */
  lemma MinedValidatesIff(
    crypto: Crypto, c: seq<Block>, l: Ledger, identity: string, transactions: seq<Transaction>, timestamp: nat)
    requires crypto.Valid() && WellFormed(Genesis(crypto), c)
    requires l.chain == MapOf(c) && StoresSound(l.pool, l.spent) && Hashes(transactions) <= l.pool.Keys
    requires Mined(crypto, Latest(l.chain).Hash(), identity, transactions, timestamp).Some?
    ensures var b := Mined(crypto, Latest(l.chain).Hash(), identity, transactions, timestamp).value;
            ValidateBlock(l.chain, l.spent, b) == Success <==> timestamp > Latest(l.chain).Timestamp()
  {
    LastIsTip(Genesis(crypto), c);
    MinedIsMinedOn(crypto, Tip(c).Hash(), identity, transactions, timestamp);
    ValidatesIff(Genesis(crypto), c, l.spent, Mined(crypto, Tip(c).Hash(), identity, transactions, timestamp).value);
  }

  lemma SubmittedValidates(crypto: Crypto, l: Ledger)
    requires crypto.Valid() && IsChain(Genesis(crypto), l.chain) && StoresSound(l.pool, l.spent)
    requires Faithful(crypto, l) && l.miner.Submitted?
    ensures var b := l.miner.block;
            && ValidateBlock(l.chain, l.spent, b) == Success
            && MinedOn(crypto, b, Latest(l.chain).Hash())
            && forall n :: 0 <= n < b.header.nonce ==>
                 !Wins(crypto, Latest(l.chain).Hash(), b.header.merkleRoot, b.Timestamp(), n)
  {
    var b, tip := l.miner.block, Latest(l.chain);
    var identity, timestamp :|
      timestamp > tip.Timestamp() && Mined(crypto, tip.Hash(), identity, b.transactions, timestamp) == Some(b);
    MinedIsMinedOn(crypto, tip.Hash(), identity, b.transactions, timestamp);
    MinedValidatesIff(crypto, ChainOf(crypto, l), l, identity, b.transactions, timestamp);
  }

  // ---- runs in which every block was mined ----

  /** The hash the block claims is the miner's own computation over the link it claims. */
  predicate IsMined(crypto: Crypto, b: Block) {
    MinedOn(crypto, b, b.header.previousHash)
  }

  ghost predicate MinedEvent(crypto: Crypto, e: Event) {
    && (e.BlockReceived? ==> IsMined(crypto, e.block))
    && (e.Downloaded? ==> forall b :: b in e.blocks ==> IsMined(crypto, b))
  }

  ghost predicate MinerMines(crypto: Crypto, l: Ledger) {
    match l.miner
    case Judging(b) => IsMined(crypto, b)
    case Submitted(b) => IsMined(crypto, b)
    case _ => true
  }

  ghost predicate MinedLedger(crypto: Crypto, l: Ledger) {
    && Sound(crypto, l)
    && MinedChain(crypto, ChainOf(crypto, l))
    && MinerMines(crypto, l)
  }

  /** On a chain of mined blocks, a mined block that validates is always stored: no hash is ever taken. */
  lemma MinedBlockIsStored(crypto: Crypto, l: Ledger, b: Block)
    requires MinedLedger(crypto, l) && IsMined(crypto, b)
    requires ValidateBlock(l.chain, l.spent, b) == Success
    ensures b.Hash() !in l.chain
    ensures IsChain(Genesis(crypto), AcceptBlock(l, b).chain)
    ensures ChainOf(crypto, AcceptBlock(l, b)) == ChainOf(crypto, l) + [Settled(b)]
    ensures MinedChain(crypto, ChainOf(crypto, AcceptBlock(l, b)))
  {
    var c := ChainOf(crypto, l);
    ValidatesIff(Genesis(crypto), c, l.spent, b);
    MinedIsFresh(crypto, c, b);
    MinedExtends(crypto, c, Settled(b));
    AcceptKeepsChain(crypto, l, b);
  }

  /** So after a quiet search, processing the submitted block lengthens the chain by exactly that block. */
  lemma MinerExtendsChain(crypto: Crypto, l: Ledger, events: seq<Event>)
    requires crypto.Valid() && MinedLedger(crypto, l) && l.miner == Collecting([])
    requires QuietRun(crypto, l, events) && Run(crypto, l, events).miner.Submitted?
    ensures var l' := Run(crypto, l, events);
            && IsChain(Genesis(crypto), BlockMined(l').chain)
            && ChainOf(crypto, BlockMined(l')) == ChainOf(crypto, l) + [Settled(l'.miner.block)]
            && MinedChain(crypto, ChainOf(crypto, BlockMined(l')))
  {
    var l' := Run(crypto, l, events);
    QuietRunKeepsFaithful(crypto, l, events);
    RunConserves(crypto, l, events);
    SubmittedValidates(crypto, l');
    LastIsTip(Genesis(crypto), ChainOf(crypto, l));
    QuietIsSound(crypto, l, l');
    MinedBlockIsStored(crypto, l', l'.miner.block);
  }

  lemma QuietIsSound(crypto: Crypto, l: Ledger, l': Ledger)
    requires MinedLedger(crypto, l) && Faithful(crypto, l') && l'.miner.Submitted?
    requires l'.chain == l.chain && StoresSound(l'.pool, l'.spent)
    requires IsMined(crypto, l'.miner.block)
    ensures MinedLedger(crypto, l') && ChainOf(crypto, l') == ChainOf(crypto, l)
  {
  }

  lemma AcceptKeepsMined(crypto: Crypto, l: Ledger, b: Block)
    requires MinedLedger(crypto, l) && IsMined(crypto, b)
    ensures IsChain(Genesis(crypto), AcceptBlock(l, b).chain)
    ensures MinedChain(crypto, ChainOf(crypto, AcceptBlock(l, b)))
  {
    if ValidateBlock(l.chain, l.spent, b) == Success { MinedBlockIsStored(crypto, l, b); }
  }

  lemma {:induction false} PutAllFrom(m: map<string, Block>, blocks: seq<Block>)
    ensures forall h :: h in Download.PutAll(m, blocks) && h !in m ==> Download.PutAll(m, blocks)[h] in blocks
  {
    if |blocks| > 0 {
      PutAllFrom(m, blocks[..|blocks| - 1]);
      assert blocks == blocks[..|blocks| - 1] + [blocks[|blocks| - 1]];
    }
  }

  lemma DownloadKeepsMined(crypto: Crypto, l: Ledger, blocks: seq<Block>)
    requires MinedLedger(crypto, l) && LinksUp(l, Downloaded(blocks))
    requires forall b :: b in blocks ==> IsMined(crypto, b)
    ensures IsChain(Genesis(crypto), StoreDownloaded(l, blocks).chain)
    ensures MinedChain(crypto, ChainOf(crypto, StoreDownloaded(l, blocks)))
  {
    var c := ChainOf(crypto, l);
    LastIsTip(Genesis(crypto), c);
    Download.DownloadKeepsChainIff(Genesis(crypto), c, blocks);
    PutAllFrom(l.chain, blocks);
    ExtendsMined(crypto, c, ChainOf(crypto, StoreDownloaded(l, blocks)), blocks);
  }

  lemma ExtendsMined(crypto: Crypto, c: seq<Block>, f: seq<Block>, blocks: seq<Block>)
    requires MinedChain(crypto, c) && WellFormed(Genesis(crypto), f) && c <= f
    requires forall h :: h in MapOf(f) && h !in MapOf(c) ==> MapOf(f)[h] in blocks
    requires forall b :: b in blocks ==> IsMined(crypto, b)
    ensures MinedChain(crypto, f)
  {
    forall i | 0 < i < |f| ensures MinedAt(crypto, f, i) {
      assert FollowsAt(f, i);
      if i < |c| {
        assert MinedAt(crypto, c, i);
      } else {
        Growth.AboveIsNew(c, f, i);
        assert IsMined(crypto, f[i]);
      }
    }
  }

  lemma StepKeepsMinedChain(crypto: Crypto, l: Ledger, e: Event)
    requires MinedLedger(crypto, l)
    requires LinksUp(l, e) && MinedEvent(crypto, e)
    ensures IsChain(Genesis(crypto), Step(crypto, l, e).chain)
    ensures MinedChain(crypto, SequenceOf(Genesis(crypto), Step(crypto, l, e).chain))
  {
    StepChain(crypto, l, e);
    if e.BlockReceived? {
      AcceptKeepsMined(crypto, l, e.block);
    } else if e.MinedProcessed? {
      ProcessKeepsMined(crypto, l);
    } else if e.Downloaded? {
      DownloadKeepsMined(crypto, l, e.blocks);
    }
  }

  lemma ProcessKeepsMined(crypto: Crypto, l: Ledger)
    requires MinedLedger(crypto, l)
    ensures IsChain(Genesis(crypto), BlockMined(l).chain)
    ensures MinedChain(crypto, ChainOf(crypto, BlockMined(l)))
  {
    if l.miner.Submitted? { AcceptKeepsMined(crypto, l, l.miner.block); }
  }

  lemma StepKeepsMiner(crypto: Crypto, l: Ledger, e: Event)
    requires crypto.Valid() && MinerMines(crypto, l)
    ensures MinerMines(crypto, Step(crypto, l, e))
  {
    if e.BlockReceived? { AcceptLeavesMiner(l, e.block); }
    if e.MiningFinished? && l.miner.Searching? && Step(crypto, l, e).miner.Judging? {
      MinedIsMinedOn(crypto, l.miner.previousHash, e.identity, l.miner.transactions, l.miner.timestamp);
    }
  }

  lemma StepKeepsMined(crypto: Crypto, l: Ledger, e: Event)
    requires crypto.Valid() && MinedLedger(crypto, l)
    requires LinksUp(l, e) && MinedEvent(crypto, e)
    ensures MinedLedger(crypto, Step(crypto, l, e))
  {
    StepKeepsSound(crypto, l, e);
    StepKeepsMinedChain(crypto, l, e);
    StepKeepsMiner(crypto, l, e);
  }

  lemma {:induction false} RunKeepsMined(crypto: Crypto, l: Ledger, events: seq<Event>)
    requires crypto.Valid() && MinedLedger(crypto, l)
    requires LinkedRun(crypto, l, events) && forall e :: e in events ==> MinedEvent(crypto, e)
    ensures MinedLedger(crypto, Run(crypto, l, events))
  {
    if |events| > 0 {
      var n := |events| - 1;
      RunKeepsMined(crypto, l, events[..n]);
      StepKeepsMined(crypto, Run(crypto, l, events[..n]), events[n]);
    }
  }

  /** A run fed only mined blocks: the scan is the chain backwards and never passes 16^60 + 1 blocks. */
  lemma MinedRun(crypto: Crypto, events: seq<Event>)
    requires crypto.Valid()
    requires LinkedRun(crypto, Fresh(crypto), events) && forall e :: e in events ==> MinedEvent(crypto, e)
    ensures var l := Run(crypto, Fresh(crypto), events);
            && MinedLedger(crypto, l)
            && Database.Scan(l.chain) == Reversed(ChainOf(crypto, l))
            && |ChainOf(crypto, l)| <= 1 + Pow16(60)
  {
    FreshIsSound(crypto);
    RunKeepsMined(crypto, Fresh(crypto), events);
    var c := ChainOf(crypto, Run(crypto, Fresh(crypto), events));
    MinedScan(crypto, c);
    MinedChainIsBounded(crypto, c);
  }
}

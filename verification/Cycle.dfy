/** The miner's task, once round: a full batch, a search, a verdict, and what becomes of the block. */
module Cycle {
  import opened Records
  import Download
  import opened Chain
  import opened Hashing
  import opened Validator
  import opened Mining
  import opened Ledger
  import opened Safety
  import opened Spending

  // ---- full batches ----

  /** A batch grows to five transactions, and only then is it searched over. */
  ghost predicate HasFullBatch(miner: Miner) {
    match miner
    case Collecting(batch) => |batch| <= 5
    case Searching(transactions, _, _) => |transactions| == 5
    case Judging(b) => |b.transactions| == 5
    case Submitted(b) => |b.transactions| == 5
    case Stopped => true
  }

  lemma StepKeepsFull(crypto: Crypto, l: Ledger, e: Event)
    requires HasFullBatch(l.miner)
    ensures HasFullBatch(Step(crypto, l, e).miner)
  {
    if e.BlockReceived? { AcceptLeavesMiner(l, e.block); }
  }

  /** In every run each block of the node's own has five transactions. */
  lemma {:induction false} RunKeepsFull(crypto: Crypto, l: Ledger, events: seq<Event>)
    requires HasFullBatch(l.miner)
    ensures HasFullBatch(Run(crypto, l, events).miner)
  {
    if |events| > 0 {
      var n := |events| - 1;
      RunKeepsFull(crypto, l, events[..n]);
      StepKeepsFull(crypto, Run(crypto, l, events[..n]), events[n]);
    }
  }

  // ---- the search ----

  /**
   * A search over a full batch ends exactly when some 64-bit nonce wins over the store's last block, with
   * the block of the least one: the batch, the clock at its start, the node's identity.
   */
  lemma SearchFindsIff(crypto: Crypto, l: Ledger, timestamp: nat, identity: string)
    requires crypto.Valid() && l.miner.Collecting? && |l.miner.batch| == 5
    ensures var l' := Run(crypto, l, [MiningStarted(timestamp), MiningFinished(identity)]);
            var tip, root := Latest(l.chain).Hash(), crypto.root(Leaves(l.miner.batch));
            && l'.(miner := l.miner) == l
            && (l'.miner.Judging? <==>
                  exists n :: 0 <= n < 0x1_0000_0000_0000_0000 && Wins(crypto, tip, root, timestamp, n))
            && (l'.miner.Judging? ==>
                  var b := l'.miner.block;
                  && MinedOn(crypto, b, tip)
                  && IsRooted(crypto, b)
                  && b.transactions == l.miner.batch
                  && b.Timestamp() == timestamp
                  && b.header.minedBy == identity
                  && forall n :: 0 <= n < b.header.nonce ==> !Wins(crypto, tip, root, timestamp, n))
  {
    RunTwo(crypto, l, MiningStarted(timestamp), MiningFinished(identity));
    var tip := Latest(l.chain).Hash();
    if Mined(crypto, tip, identity, l.miner.batch, timestamp).Some? {
      MinedIsMinedOn(crypto, tip, identity, l.miner.batch, timestamp);
    }
  }

  // ---- the verdict ----

  /** A rejected block is gone: nothing changes but that the miner starts an empty batch. */
  lemma RejectedIsDropped(crypto: Crypto, l: Ledger)
    requires l.miner.Judging?
    ensures Run(crypto, l, [VerdictReceived(true), MinedProcessed]) == l.(miner := Collecting([]))
  {
    RunTwo(crypto, l, VerdictReceived(true), MinedProcessed);
  }

  /** Accepted, or unanswered: the node handles its block as it would a peer's. */
  lemma AcceptedIsProcessed(crypto: Crypto, l: Ledger)
    requires l.miner.Judging?
    ensures Run(crypto, l, [VerdictReceived(false), MinedProcessed])
         == AcceptBlock(l, l.miner.block).(miner := Collecting([]))
  {
    RunTwo(crypto, l, VerdictReceived(false), MinedProcessed);
    AcceptIgnoresMiner(l, Submitted(l.miner.block), l.miner.block);
  }

  lemma AcceptIgnoresMiner(l: Ledger, miner: Miner, b: Block)
    ensures AcceptBlock(l.(miner := miner), b) == AcceptBlock(l, b).(miner := miner)
  {
  }

  lemma QuietNext(crypto: Crypto, l: Ledger, events: seq<Event>, e: Event)
    requires QuietRun(crypto, l, events) && Quiet(Run(crypto, l, events), e)
    ensures QuietRun(crypto, l, events + [e])
  {
    assert (events + [e])[..|events|] == events;
  }

  lemma SubmitThenProcess(crypto: Crypto, l: Ledger, events: seq<Event>)
    requires Run(crypto, l, events).miner.Judging?
    ensures var judged := Run(crypto, l, events + [VerdictReceived(false)]);
            && judged.miner == Submitted(Run(crypto, l, events).miner.block)
            && Run(crypto, l, events + [VerdictReceived(false), MinedProcessed]) == BlockMined(judged)
  {
    var judged := events + [VerdictReceived(false)];
    RunNext(crypto, l, events, VerdictReceived(false));
    RunNext(crypto, l, judged, MinedProcessed);
    assert judged + [MinedProcessed] == events + [VerdictReceived(false), MinedProcessed];
  }

  /** After a quiet search that found a block: not rejected, it lengthens the chain by exactly that block. */
  lemma UnrejectedExtendsChain(crypto: Crypto, l: Ledger, events: seq<Event>)
    requires crypto.Valid() && MinedLedger(crypto, l) && l.miner == Collecting([])
    requires QuietRun(crypto, l, events) && Run(crypto, l, events).miner.Judging?
    ensures var b := Run(crypto, l, events).miner.block;
            var l' := Run(crypto, l, events + [VerdictReceived(false), MinedProcessed]);
            && IsChain(Genesis(crypto), l'.chain)
            && ChainOf(crypto, l') == ChainOf(crypto, l) + [Settled(b)]
            && MinedChain(crypto, ChainOf(crypto, l'))
            && l'.miner == Collecting([])
  {
    QuietNext(crypto, l, events, VerdictReceived(false));
    SubmitThenProcess(crypto, l, events);
    MinerExtendsChain(crypto, l, events + [VerdictReceived(false)]);
  }

  /** Rejected, it leaves the chain, the spent store and all that was pooled by then as they were. */
  lemma RejectedLeavesChain(crypto: Crypto, l: Ledger, events: seq<Event>)
    requires crypto.Valid() && MinedLedger(crypto, l) && l.miner == Collecting([])
    requires QuietRun(crypto, l, events) && Run(crypto, l, events).miner.Judging?
    ensures var l' := Run(crypto, l, events + [VerdictReceived(true), MinedProcessed]);
            && l'.chain == l.chain
            && l'.spent == l.spent
            && l'.pool == Run(crypto, l, events).pool
            && l'.miner == Collecting([])
  {
    LastIsTip(Genesis(crypto), ChainOf(crypto, l));
    QuietRunKeepsFaithful(crypto, l, events);
    RunConcat(crypto, l, events, [VerdictReceived(true), MinedProcessed]);
    RejectedIsDropped(crypto, Run(crypto, l, events));
  }

  // ---- Merkle roots over runs ----

  /** The validator looks at neither the root nor the nonce nor the miner's name. */
  lemma RootIsNotChecked(
    chain: map<string, Block>, spent: map<string, Transaction>, b: Block, root: string, nonce: nat, minedBy: string)
    ensures var other := b.(header := b.header.(merkleRoot := root, nonce := nonce, minedBy := minedBy));
            ValidateBlock(chain, spent, other) == ValidateBlock(chain, spent, b)
  {
  }

  /** Every stored block but those of `base` carries the root of its own transactions. */
  ghost predicate RootedBeyond(crypto: Crypto, m: map<string, Block>, base: map<string, Block>) {
    forall h :: h in m && h !in base ==> IsRooted(crypto, m[h])
  }

  ghost predicate CarriesRooted(crypto: Crypto, miner: Miner) {
    match miner
    case Judging(b) => IsRooted(crypto, b)
    case Submitted(b) => IsRooted(crypto, b)
    case _ => true
  }

  /** The blocks that come from outside, if any, carry their own roots. */
  ghost predicate BringsRooted(crypto: Crypto, e: Event) {
    && (e.BlockReceived? ==> IsRooted(crypto, e.block))
    && (e.Downloaded? ==> forall b :: b in e.blocks ==> IsRooted(crypto, b))
  }

  lemma SettledIsRooted(crypto: Crypto, b: Block)
    requires IsRooted(crypto, b)
    ensures IsRooted(crypto, Settled(b))
  {
    assert Leaves(Settled(b).transactions) == Leaves(b.transactions);
  }

  lemma AcceptKeepsRooted(crypto: Crypto, l: Ledger, b: Block, base: map<string, Block>)
    requires RootedBeyond(crypto, l.chain, base) && IsRooted(crypto, b)
    ensures RootedBeyond(crypto, AcceptBlock(l, b).chain, base)
  {
    SettledIsRooted(crypto, b);
  }

  lemma StepKeepsRooted(crypto: Crypto, l: Ledger, e: Event, base: map<string, Block>)
    requires crypto.Valid() && RootedBeyond(crypto, l.chain, base) && CarriesRooted(crypto, l.miner)
    requires BringsRooted(crypto, e)
    ensures RootedBeyond(crypto, Step(crypto, l, e).chain, base)
  {
    StepChain(crypto, l, e);
    if e.BlockReceived? {
      AcceptKeepsRooted(crypto, l, e.block, base);
    } else if e.MinedProcessed? && l.miner.Submitted? {
      AcceptKeepsRooted(crypto, l, l.miner.block, base);
    } else if e.Downloaded? {
      PutAllFrom(l.chain, e.blocks);
      Download.PutAllGrows(l.chain, e.blocks);
    }
  }

  lemma StepKeepsCarriedRooted(crypto: Crypto, l: Ledger, e: Event)
    requires crypto.Valid() && CarriesRooted(crypto, l.miner)
    ensures CarriesRooted(crypto, Step(crypto, l, e).miner)
  {
    if e.BlockReceived? { AcceptLeavesMiner(l, e.block); }
    if e.MiningFinished? && l.miner.Searching? && Step(crypto, l, e).miner.Judging? {
      MinedIsMinedOn(crypto, l.miner.previousHash, e.identity, l.miner.transactions, l.miner.timestamp);
    }
  }

  /** Over every run, whatever the node mines and stores carries the root of its transactions. */
  lemma {:induction false} RunKeepsRooted(crypto: Crypto, l: Ledger, events: seq<Event>, base: map<string, Block>)
    requires crypto.Valid() && RootedBeyond(crypto, l.chain, base) && CarriesRooted(crypto, l.miner)
    requires forall e :: e in events ==> BringsRooted(crypto, e)
    ensures RootedBeyond(crypto, Run(crypto, l, events).chain, base)
    ensures CarriesRooted(crypto, Run(crypto, l, events).miner)
  {
    if |events| > 0 {
      var n := |events| - 1;
      RunKeepsRooted(crypto, l, events[..n], base);
      assert events[n] in events;
      StepKeepsRooted(crypto, Run(crypto, l, events[..n]), events[n], base);
      StepKeepsCarriedRooted(crypto, Run(crypto, l, events[..n]), events[n]);
    }
  }

  lemma BeyondGenesisIsRooted(crypto: Crypto, c: seq<Block>)
    requires WellFormed(Genesis(crypto), c) && RootedBeyond(crypto, MapOf(c), MapOf([Genesis(crypto)]))
    ensures RootedChain(crypto, c)
  {
    var g := Genesis(crypto);
    MapOfMembers(c);
    MapOfMembers([g]);
    forall i | 0 < i < |c| ensures IsRooted(crypto, c[i]) {
      assert c[0].Hash() != c[i].Hash();
      assert c[i].Hash() in MapOf(c) && c[i].Hash() !in MapOf([g]);
    }
  }

  ghost predicate BringsMined(crypto: Crypto, events: seq<Event>) {
    forall e :: e in events ==> MinedEvent(crypto, e) && BringsRooted(crypto, e)
  }

  /** From an empty database, fed only mined blocks with their own roots, the node holds such a chain. */
  lemma MinedRunIsRooted(crypto: Crypto, events: seq<Event>)
    requires crypto.Valid() && LinkedRun(crypto, Fresh(crypto), events) && BringsMined(crypto, events)
    ensures var l := Run(crypto, Fresh(crypto), events);
            && IsChain(Genesis(crypto), l.chain)
            && MinedChain(crypto, ChainOf(crypto, l))
            && RootedChain(crypto, ChainOf(crypto, l))
  {
    MinedRun(crypto, events);
    RunKeepsRooted(crypto, Fresh(crypto), events, Fresh(crypto).chain);
    BeyondGenesisIsRooted(crypto, ChainOf(crypto, Run(crypto, Fresh(crypto), events)));
  }

  /** Two such nodes whose chains share a hash hold the same transactions, in order, up to it. */
  lemma TwoRunsAgree(
    crypto: Crypto, events: seq<Event>, others: seq<Event>, c: seq<Block>, i: nat, d: seq<Block>, j: nat)
    requires crypto.Valid()
    requires LinkedRun(crypto, Fresh(crypto), events) && BringsMined(crypto, events)
    requires LinkedRun(crypto, Fresh(crypto), others) && BringsMined(crypto, others)
    requires WellFormed(Genesis(crypto), c) && Run(crypto, Fresh(crypto), events).chain == MapOf(c)
    requires WellFormed(Genesis(crypto), d) && Run(crypto, Fresh(crypto), others).chain == MapOf(d)
    requires NoCollision(crypto, c, d) && NoRootCollision(crypto, c, d)
    requires i < |c| && j < |d| && SameHash(c, i, d, j)
    ensures i == j
    ensures forall k :: 0 <= k <= i ==> Leaves(c[k].transactions) == Leaves(d[k].transactions)
  {
    MinedRunIsRooted(crypto, events);
    MinedRunIsRooted(crypto, others);
    SequenceOfIs(Genesis(crypto), c);
    SequenceOfIs(Genesis(crypto), d);
    CommonTransactions(crypto, c, i, d, j);
  }
}

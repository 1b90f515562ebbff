/** Counting votes over the chain, and transactions addressed to an identity over pool and spent store. */
module Tally {
  import opened Records
  import Keys
  import opened Database
  import opened Chain
  import Validator
  import opened Ledger
  import Safety

  predicate InRange(t: Transaction, begin: nat, end: nat) {
    begin <= t.timestamp <= end
  }

  function BlockVotes(transactions: seq<Transaction>, begin: nat, end: nat): multiset<string> {
    if |transactions| == 0 then multiset{}
    else
      var n := |transactions| - 1;
      var votes := BlockVotes(transactions[..n], begin, end);
      if InRange(transactions[n], begin, end) then votes + multiset{transactions[n].recipient} else votes
  }

  function Votes(blocks: seq<Block>, begin: nat, end: nat): multiset<string> {
    if |blocks| == 0 then multiset{}
    else
      var n := |blocks| - 1;
      Votes(blocks[..n], begin, end) + BlockVotes(blocks[n].transactions, begin, end)
  }

  /** The table of counts holds exactly the recipients with a vote, each with its number of votes. */
  ghost predicate Tabulates(results: map<string, nat>, votes: multiset<string>) {
    && (forall r :: r in results <==> r in votes)
    && (forall r :: r in results ==> results[r] == votes[r])
  }

  /** The `ControlOperateBetween` fold, in whatever order the blocks are scanned. */
  method OperateBetween(blocks: seq<Block>, begin: nat, end: nat) returns (results: map<string, nat>)
    ensures Tabulates(results, Votes(blocks, begin, end))
  {
    results := map[];
    for i := 0 to |blocks|
      invariant Tabulates(results, Votes(blocks[..i], begin, end))
    {
      assert blocks[..i + 1][..i] == blocks[..i];
      results := CountBlock(results, blocks[i].transactions, begin, end, Votes(blocks[..i], begin, end));
    }
    assert blocks[..|blocks|] == blocks;
  }

  /** Its inner loop, over one block's transactions. */
  method CountBlock(
    before: map<string, nat>, transactions: seq<Transaction>, begin: nat, end: nat, ghost votes: multiset<string>)
    returns (results: map<string, nat>)
    requires Tabulates(before, votes)
    ensures Tabulates(results, votes + BlockVotes(transactions, begin, end))
  {
    results := before;
    for j := 0 to |transactions|
      invariant Tabulates(results, votes + BlockVotes(transactions[..j], begin, end))
    {
      assert transactions[..j + 1][..j] == transactions[..j];
      var t := transactions[j];
      if t.timestamp >= begin && t.timestamp <= end {
        results := results[t.recipient := (if t.recipient in results then results[t.recipient] else 0) + 1];
      }
    }
    assert transactions[..|transactions|] == transactions;
  }

  // ---- the tally against the transactions of the chain ----

  function AllTransactions(blocks: seq<Block>): seq<Transaction> {
    if |blocks| == 0 then []
    else AllTransactions(blocks[..|blocks| - 1]) + blocks[|blocks| - 1].transactions
  }

  function VoteFor(recipient: string, begin: nat, end: nat): Transaction -> bool {
    (t: Transaction) => InRange(t, begin, end) && t.recipient == recipient
  }

  function Counted(begin: nat, end: nat): Transaction -> bool {
    (t: Transaction) => InRange(t, begin, end)
  }

  lemma {:induction false} FilterConcat<T>(a: seq<T>, b: seq<T>, p: T -> bool)
    ensures Filter(a + b, p) == Filter(a, p) + Filter(b, p)
  {
    if |b| == 0 {
      assert a + b == a;
    } else {
      var n := |b| - 1;
      FilterConcat(a, b[..n], p);
      assert (a + b)[..|a| + n] == a + b[..n];
    }
  }

  lemma {:induction false} BlockVotesCount(transactions: seq<Transaction>, begin: nat, end: nat, r: string)
    ensures BlockVotes(transactions, begin, end)[r] == |Filter(transactions, VoteFor(r, begin, end))|
    ensures |BlockVotes(transactions, begin, end)| == |Filter(transactions, Counted(begin, end))|
  {
    if |transactions| > 0 { BlockVotesCount(transactions[..|transactions| - 1], begin, end, r); }
  }

  /** Each recipient's count is the number of in-range transactions addressed to it; they sum to all in range. */
  lemma {:induction false} VotesCount(blocks: seq<Block>, begin: nat, end: nat, r: string)
    ensures Votes(blocks, begin, end)[r] == |Filter(AllTransactions(blocks), VoteFor(r, begin, end))|
    ensures |Votes(blocks, begin, end)| == |Filter(AllTransactions(blocks), Counted(begin, end))|
  {
    if |blocks| > 0 {
      var init, last := blocks[..|blocks| - 1], blocks[|blocks| - 1].transactions;
      VotesCount(init, begin, end, r);
      BlockVotesCount(last, begin, end, r);
      FilterConcat(AllTransactions(init), last, VoteFor(r, begin, end));
      FilterConcat(AllTransactions(init), last, Counted(begin, end));
    }
  }

  // ---- order does not matter ----

  lemma VotesNext(blocks: seq<Block>, b: Block, begin: nat, end: nat)
    ensures Votes(blocks + [b], begin, end) == Votes(blocks, begin, end) + BlockVotes(b.transactions, begin, end)
  {
    assert (blocks + [b])[..|blocks|] == blocks;
  }

  lemma {:induction false} VotesConcat(a: seq<Block>, b: seq<Block>, begin: nat, end: nat)
    ensures Votes(a + b, begin, end) == Votes(a, begin, end) + Votes(b, begin, end)
  {
    if |b| == 0 {
      assert a + b == a;
    } else {
      var init, last := b[..|b| - 1], b[|b| - 1];
      VotesConcat(a, init, begin, end);
      VotesNext(a + init, last, begin, end);
      ConcatLast(a, b);
    }
  }

  lemma VotesWithout(b: seq<Block>, i: nat, begin: nat, end: nat)
    requires i < |b|
    ensures Votes(b, begin, end)
         == Votes(b[..i] + b[i + 1..], begin, end) + BlockVotes(b[i].transactions, begin, end)
    ensures multiset(b) == multiset(b[..i] + b[i + 1..]) + multiset{b[i]}
  {
    assert b == b[..i + 1] + b[i + 1..] && b[..i + 1] == b[..i] + [b[i]];
    VotesConcat(b[..i + 1], b[i + 1..], begin, end);
    VotesConcat(b[..i], b[i + 1..], begin, end);
    assert b[..i + 1][..i] == b[..i];
  }

  lemma {:induction false} VotesPermute(a: seq<Block>, b: seq<Block>, begin: nat, end: nat)
    requires multiset(a) == multiset(b)
    ensures Votes(a, begin, end) == Votes(b, begin, end)
  {
    if |a| == 0 {
      assert |b| == |multiset(b)|;
    } else {
      var n := |a| - 1;
      assert a == a[..n] + [a[n]];
      assert a[n] in multiset(a);
      var i :| 0 <= i < |b| && b[i] == a[n];
      VotesWithout(b, i, begin, end);
      assert multiset(a[..n]) == multiset(a) - multiset{a[n]};
      assert multiset(b[..i] + b[i + 1..]) == multiset(b) - multiset{b[i]};
      VotesPermute(a[..n], b[..i] + b[i + 1..], begin, end);
    }
  }

  /** The fold in key order tallies the abstract chain. */
  lemma TallyOfChain(genesis: Block, c: seq<Block>, begin: nat, end: nat)
    requires WellFormed(genesis, c)
    ensures Votes(Scan(MapOf(c)), begin, end) == Votes(c, begin, end)
  {
    ScanIsPermutation(c);
    VotesPermute(Scan(MapOf(c)), c, begin, end);
  }

  // ---- ranges and growth ----

  lemma {:induction false} BlockVotesSplit(transactions: seq<Transaction>, begin: nat, middle: nat, end: nat)
    requires begin <= middle + 1 && middle <= end
    ensures BlockVotes(transactions, begin, end)
         == BlockVotes(transactions, begin, middle) + BlockVotes(transactions, middle + 1, end)
  {
    if |transactions| > 0 { BlockVotesSplit(transactions[..|transactions| - 1], begin, middle, end); }
  }

  /** A range is tallied by its two parts. */
  lemma {:induction false} VotesSplit(blocks: seq<Block>, begin: nat, middle: nat, end: nat)
    requires begin <= middle + 1 && middle <= end
    ensures Votes(blocks, begin, end) == Votes(blocks, begin, middle) + Votes(blocks, middle + 1, end)
  {
    if |blocks| > 0 {
      VotesSplit(blocks[..|blocks| - 1], begin, middle, end);
      BlockVotesSplit(blocks[|blocks| - 1].transactions, begin, middle, end);
    }
  }

  lemma {:induction false} StatusDoesNotVote(
    transactions: seq<Transaction>, status: TransactionStatus, begin: nat, end: nat)
    ensures BlockVotes(WithStatus(transactions, status), begin, end) == BlockVotes(transactions, begin, end)
  {
    if |transactions| > 0 {
      var n := |transactions| - 1;
      StatusDoesNotVote(transactions[..n], status, begin, end);
      assert WithStatus(transactions, status)[..n] == WithStatus(transactions[..n], status);
    }
  }

  /** Accepting a block adds exactly its own tally when its hash is new, and nothing otherwise. */
  lemma TallyGrows(genesis: Block, c: seq<Block>, l: Ledger, b: Block, begin: nat, end: nat)
    requires WellFormed(genesis, c) && l.chain == MapOf(c)
    requires Validator.ValidateBlock(l.chain, l.spent, b) == Validator.Success
    ensures Votes(Scan(AcceptBlock(l, b).chain), begin, end)
         == Votes(Scan(l.chain), begin, end)
            + (if b.Hash() !in l.chain then BlockVotes(b.transactions, begin, end) else multiset{})
  {
    Safety.AcceptRefines(genesis, c, l, b);
    Validator.ValidatesIff(genesis, c, l.spent, b);
    TallyOfChain(genesis, c, begin, end);
    TallyOfChain(genesis, Safety.Append(c, l.spent, b), begin, end);
    assert (c + [Settled(b)])[..|c|] == c;
    StatusDoesNotVote(b.transactions, Verified, begin, end);
  }

  // ---- `TransactionsInRequest` ----

  function AddressedTo(identity: string): Transaction -> bool {
    (t: Transaction) => t.recipient == identity
  }

  method CountAddressed(values: seq<Transaction>, identity: string) returns (counter: nat)
    ensures counter == |Filter(values, AddressedTo(identity))|
  {
    counter := 0;
    for i := 0 to |values|
      invariant counter == |Filter(values[..i], AddressedTo(identity))|
    {
      FilterNext(values, i, AddressedTo(identity));
      if values[i].recipient == identity { counter := counter + 1; }
    }
    assert values[..|values|] == values;
  }

  method TransactionsIn(pool: Store<Transaction>, spent: Store<Transaction>, identity: string) returns (counter: nat)
    ensures counter == |Filter(Scan(pool.db), AddressedTo(identity))| + |Filter(Scan(spent.db), AddressedTo(identity))|
  {
    var pooled := CountAddressed(pool.Data(), identity);
    var settled := CountAddressed(spent.Data(), identity);
    counter := pooled + settled;
  }

  /** The hashes on record, pooled or spent, whose transaction is addressed to `identity`. */
  function AddressedHashes(l: Ledger, identity: string): set<string> {
    set k | k in l.pool.Keys + l.spent.Keys
          && (if k in l.pool then l.pool[k].recipient else l.spent[k].recipient) == identity
  }

  function AddressedKeys(m: map<string, Transaction>, identity: string): set<string> {
    set k | k in m && m[k].recipient == identity
  }

  lemma CountIsCardinality(m: map<string, Transaction>, identity: string)
    ensures |Filter(Scan(m), AddressedTo(identity))| == |AddressedKeys(m, identity)|
  {
    assert AddressedKeys(m, identity) == Where(m, AddressedTo(identity)).Keys;
    FilterScan(m, AddressedTo(identity));
    Keys.SortedKeys(Where(m, AddressedTo(identity)).Keys);
  }

  /** Pool and spent store are disjoint, so the reply counts every hash once. */
  lemma CountsEachHashOnce(l: Ledger, identity: string)
    requires Safety.StoresSound(l.pool, l.spent)
    ensures |Filter(Scan(l.pool), AddressedTo(identity))| + |Filter(Scan(l.spent), AddressedTo(identity))|
         == |AddressedHashes(l, identity)|
  {
    CountIsCardinality(l.pool, identity);
    CountIsCardinality(l.spent, identity);
    AddressedSplits(l, identity);
  }

  lemma AddressedSplits(l: Ledger, identity: string)
    requires l.pool.Keys !! l.spent.Keys
    ensures |AddressedHashes(l, identity)|
         == |AddressedKeys(l.pool, identity)| + |AddressedKeys(l.spent, identity)|
  {
    var p, s := AddressedKeys(l.pool, identity), AddressedKeys(l.spent, identity);
    assert AddressedHashes(l, identity) == p + s;
    DisjointSizes(p, s);
  }

  lemma DisjointSizes<T>(a: set<T>, b: set<T>)
    requires a !! b
    ensures |a + b| == |a| + |b|
  {
  }
}

/** The checks a node makes before it accepts a transaction or a block. */
module Validator {
  import opened Records
  import opened Chain

  datatype ValidationState =
    | Success
    | TransactionAlreadySpent
    | WrongTimestamp
    | IncompleteProofOfWork
    | WrongPreviousHash

  function ValidateHeader(last: BlockHeader, block: Block): ValidationState {
    if !(block.header.timestamp > last.timestamp) then WrongTimestamp
    else if !(PROOF_OF_WORK <= block.header.hash) then IncompleteProofOfWork
    else if !(last.hash == block.header.previousHash) then WrongPreviousHash
    else Success
  }

  function ValidateTransaction(spent: map<string, Transaction>, transaction: Transaction): ValidationState {
    if transaction.hash in spent then TransactionAlreadySpent else Success
  }

  function ValidateTransactions(spent: map<string, Transaction>, transactions: seq<Transaction>): ValidationState {
    if |transactions| == 0 then Success
    else
      var state := ValidateTransaction(spent, transactions[0]);
      if state != Success then state else ValidateTransactions(spent, transactions[1..])
  }

  function ValidateBlock(
    chain: map<string, Block>, spent: map<string, Transaction>, block: Block): ValidationState
  {
    var state := ValidateHeader(Latest(chain).header, block);
    if state != Success then state else ValidateTransactions(spent, block.transactions)
  }

  lemma {:induction false} NoneSpentIff(spent: map<string, Transaction>, transactions: seq<Transaction>)
    ensures ValidateTransactions(spent, transactions) in {Success, TransactionAlreadySpent}
    ensures ValidateTransactions(spent, transactions) == Success <==> Hashes(transactions) !! spent.Keys
  {
    if |transactions| > 0 {
      NoneSpentIff(spent, transactions[1..]);
      assert transactions == [transactions[0]] + transactions[1..];
      assert Hashes(transactions) == {transactions[0].hash} + Hashes(transactions[1..]);
    }
  }

  /** A block passes exactly when it follows the chain's tip and none of its transactions is spent. */
  lemma ValidatesIff(genesis: Block, c: seq<Block>, spent: map<string, Transaction>, block: Block)
    requires WellFormed(genesis, c)
    ensures ValidateBlock(MapOf(c), spent, block) == Success
            <==> Follows(block, Tip(c)) && Hashes(block.transactions) !! spent.Keys
  {
    LastIsTip(genesis, c);
    NoneSpentIff(spent, block.transactions);
  }

  /** The state named is that of the first check the block fails, the transactions coming last. */
  lemma NamesFirstFailure(genesis: Block, c: seq<Block>, spent: map<string, Transaction>, block: Block)
    requires WellFormed(genesis, c)
    ensures var state, h, tip := ValidateBlock(MapOf(c), spent, block), block.header, Tip(c);
            && (state == WrongTimestamp <==> h.timestamp <= tip.Timestamp())
            && (state == IncompleteProofOfWork <==> h.timestamp > tip.Timestamp() && !(PROOF_OF_WORK <= h.hash))
            && (state == WrongPreviousHash <==>
                  h.timestamp > tip.Timestamp() && PROOF_OF_WORK <= h.hash && h.previousHash != tip.Hash())
            && (state == TransactionAlreadySpent <==>
                  Follows(block, tip) && exists t :: t in block.transactions && t.hash in spent)
  {
    LastIsTip(genesis, c);
    NoneSpentIff(spent, block.transactions);
    if t :| t in block.transactions && t.hash in spent { assert t.hash in Hashes(block.transactions); }
  }
}

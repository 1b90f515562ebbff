/** The values a node stores and exchanges. Timestamps and nonces are the source's `uint64_t`. */
module Records {

  datatype Option<+T> = None | Some(value: T)

  datatype TransactionType = Send

  datatype TransactionStatus = Pending | Verified | Rejected

  datatype Transaction = Transaction(
    kind: TransactionType,
    status: TransactionStatus,
    hash: string,
    timestamp: nat,
    sender: string,
    recipient: string)

  datatype BlockHeader = BlockHeader(
    hash: string,
    previousHash: string,
    merkleRoot: string,
    minedBy: string,
    timestamp: nat,
    nonce: nat)

  datatype Block = Block(header: BlockHeader, transactions: seq<Transaction>) {
    function Hash(): string { header.hash }
    function Timestamp(): nat { header.timestamp }
  }

  /** The default-constructed block, which `last` answers on an empty store. */
  const BLANK_BLOCK := Block(BlockHeader("", "", "", "", 0, 0), [])

  function WithStatus(transactions: seq<Transaction>, status: TransactionStatus): (r: seq<Transaction>)
    ensures |r| == |transactions|
    ensures forall i :: 0 <= i < |r| ==> r[i] == transactions[i].(status := status)
  {
    seq(|transactions|, i requires 0 <= i < |transactions| => transactions[i].(status := status))
  }

  /** A block as it is stored: every transaction marked verified, the header untouched. */
  function Settled(b: Block): Block {
    b.(transactions := WithStatus(b.transactions, Verified))
  }

  method SetTransactionsStatus(b: Block, status: TransactionStatus) returns (r: Block)
    ensures r == b.(transactions := WithStatus(b.transactions, status))
  {
    var transactions := b.transactions;
    for i := 0 to |transactions|
      invariant |transactions| == |b.transactions|
      invariant forall j :: 0 <= j < i ==> transactions[j] == b.transactions[j].(status := status)
      invariant forall j :: i <= j < |transactions| ==> transactions[j] == b.transactions[j]
    {
      transactions := transactions[i := transactions[i].(status := status)];
    }
    assert transactions == WithStatus(b.transactions, status);
    r := b.(transactions := transactions);
  }

  function Hashes(transactions: seq<Transaction>): set<string> {
    set t | t in transactions :: t.hash
  }

  function Filter<T>(s: seq<T>, p: T -> bool): seq<T> {
    if |s| == 0 then []
    else
      var rest := Filter(s[..|s| - 1], p);
      if p(s[|s| - 1]) then rest + [s[|s| - 1]] else rest
  }

  lemma FilterNext<T>(s: seq<T>, i: nat, p: T -> bool)
    requires i < |s|
    ensures Filter(s[..i + 1], p) == if p(s[i]) then Filter(s[..i], p) + [s[i]] else Filter(s[..i], p)
  {
    assert s[..i + 1][..i] == s[..i];
  }

  lemma {:induction false} FilterMembers<T(!new)>(s: seq<T>, p: T -> bool)
    ensures forall x :: x in Filter(s, p) <==> x in s && p(x)
  {
    if |s| > 0 {
      FilterMembers(s[..|s| - 1], p);
      assert s == s[..|s| - 1] + [s[|s| - 1]];
    }
  }

  lemma ConcatLast<T>(a: seq<T>, b: seq<T>)
    requires |b| > 0
    ensures a + b == a + b[..|b| - 1] + [b[|b| - 1]]
  {
  }

  /** A queue that gained `p'` and lost `o'` still accounts for all that passed through it. */
  lemma Interchange<T>(q0: seq<T>, p: seq<T>, o: seq<T>, q: seq<T>, p': seq<T>, o': seq<T>, q': seq<T>)
    requires q0 + p == o + q && q + p' == o' + q'
    ensures q0 + (p + p') == (o + o') + q'
  {
    assert q0 + (p + p') == (q0 + p) + p' == o + (q + p') == o + (o' + q');
  }

  ghost predicate NoRepeats<T>(s: seq<T>) {
    forall i, j :: 0 <= i < j < |s| ==> s[i] != s[j]
  }

  lemma NoRepeatsConcat<T>(a: seq<T>, b: seq<T>)
    ensures NoRepeats(a + b) <==> NoRepeats(a) && NoRepeats(b) && forall x :: x in a ==> x !in b
  {
    if NoRepeats(a + b) {
      assert forall i :: 0 <= i < |a| ==> a[i] == (a + b)[i];
      assert forall j :: 0 <= j < |b| ==> b[j] == (a + b)[|a| + j];
      forall i, j | 0 <= i < |a| && 0 <= j < |b| ensures a[i] != b[j] { assert (a + b)[i] != (a + b)[|a| + j]; }
    }
    if NoRepeats(a) && NoRepeats(b) && forall x :: x in a ==> x !in b {
      forall i, j | 0 <= i < j < |a + b| ensures (a + b)[i] != (a + b)[j] {
        if i < |a| <= j { assert a[i] in a && b[j - |a|] in b; }
      }
    }
  }

  function Reversed<T>(s: seq<T>): (r: seq<T>)
    ensures |r| == |s|
    ensures forall i :: 0 <= i < |s| ==> r[i] == s[|s| - 1 - i]
  {
    seq(|s|, i requires 0 <= i < |s| => s[|s| - 1 - i])
  }
}

/** The nonce search, and what its extra condition, a hash below the previous one, does to a chain. */
module Mining {
  import opened Keys
  import opened Records
  import Database
  import opened Chain
  import opened Hashing

  /** The nonce is a `uint64_t`; past this it wraps to zero and tries the same texts again. */
  const NONCE_LIMIT: nat := 0x1_0000_0000_0000_0000

  function BlockHash(crypto: Crypto, previousHash: string, root: string, timestamp: nat, nonce: nat): string {
    crypto.sha(Preimage(previousHash, root, timestamp, nonce))
  }

  predicate Wins(crypto: Crypto, previousHash: string, root: string, timestamp: nat, nonce: nat) {
    var hash := BlockHash(crypto, previousHash, root, timestamp, nonce);
    PROOF_OF_WORK <= hash && Less(hash, previousHash)
  }

  /** The first winning nonce at or after `from`; none means the search never ends. */
  function FirstWin(crypto: Crypto, previousHash: string, root: string, timestamp: nat, from: nat): (r: Option<nat>)
    ensures r.Some? ==> from <= r.value < NONCE_LIMIT && Wins(crypto, previousHash, root, timestamp, r.value)
    ensures r.Some? ==> forall n :: from <= n < r.value ==> !Wins(crypto, previousHash, root, timestamp, n)
    ensures r.None? ==> forall n :: from <= n < NONCE_LIMIT ==> !Wins(crypto, previousHash, root, timestamp, n)
    decreases NONCE_LIMIT - from
  {
    if from >= NONCE_LIMIT then None
    else if Wins(crypto, previousHash, root, timestamp, from) then Some(from)
    else FirstWin(crypto, previousHash, root, timestamp, from + 1)
  }

  function Leaves(transactions: seq<Transaction>): (leaves: seq<string>)
    ensures |leaves| == |transactions|
    ensures forall i :: 0 <= i < |leaves| ==> leaves[i] == transactions[i].hash
  {
    seq(|transactions|, i requires 0 <= i < |transactions| => transactions[i].hash)
  }

  function Mined(
    crypto: Crypto, previousHash: string, identity: string, transactions: seq<Transaction>, timestamp: nat)
    : Option<Block>
  {
    var root := crypto.root(Leaves(transactions));
    match FirstWin(crypto, previousHash, root, timestamp, 0)
    case None => None
    case Some(nonce) =>
      var hash := BlockHash(crypto, previousHash, root, timestamp, nonce);
      Some(Block(BlockHeader(hash, previousHash, root, identity, timestamp, nonce), transactions))
  }

  method MiningFunction(
    crypto: Crypto, previousHash: string, identity: string, transactions: seq<Transaction>, timestamp: nat)
    returns (r: Option<Block>)
    ensures r == Mined(crypto, previousHash, identity, transactions, timestamp)
    ensures r.Some? ==> r.value.transactions == transactions && IsRooted(crypto, r.value)
  {
    var root := crypto.root(Leaves(transactions));
    var nonce := 0;
    while nonce < NONCE_LIMIT
      invariant nonce <= NONCE_LIMIT
      invariant FirstWin(crypto, previousHash, root, timestamp, 0)
             == FirstWin(crypto, previousHash, root, timestamp, nonce)
    {
      var hash := BlockHash(crypto, previousHash, root, timestamp, nonce);
      if PROOF_OF_WORK <= hash && Less(hash, previousHash) {
        return Some(Block(BlockHeader(hash, previousHash, root, identity, timestamp, nonce), transactions));
      }
      nonce := nonce + 1;
    }
    return None;
  }

  /** A block whose hash is what the miner computes over `tip`, and wins. */
  predicate MinedOn(crypto: Crypto, b: Block, tip: string) {
    var h := b.header;
    && h.previousHash == tip
    && |h.merkleRoot| == 64
    && h.hash == BlockHash(crypto, tip, h.merkleRoot, h.timestamp, h.nonce)
    && Wins(crypto, tip, h.merkleRoot, h.timestamp, h.nonce)
  }

  /** The header carries the Merkle root of the hashes of the block's transactions, in order. */
  predicate IsRooted(crypto: Crypto, b: Block) {
    b.header.merkleRoot == crypto.root(Leaves(b.transactions))
  }

  predicate MinedAt(crypto: Crypto, c: seq<Block>, i: nat)
    requires 0 < i < |c|
  {
    MinedOn(crypto, c[i], c[i - 1].Hash())
  }

  ghost predicate MinedChain(crypto: Crypto, c: seq<Block>) {
    && WellFormed(Genesis(crypto), c)
    && forall i :: 0 < i < |c| ==> MinedAt(crypto, c, i)
  }

  /** What the miner returns is mined on the tip it was given, by the least nonce that wins. */
  lemma MinedIsMinedOn(
    crypto: Crypto, previousHash: string, identity: string, transactions: seq<Transaction>, timestamp: nat)
    requires crypto.Valid()
    requires Mined(crypto, previousHash, identity, transactions, timestamp).Some?
    ensures var b := Mined(crypto, previousHash, identity, transactions, timestamp).value;
            && MinedOn(crypto, b, previousHash)
            && b.transactions == transactions
            && IsRooted(crypto, b)
            && b.header.minedBy == identity
            && b.Timestamp() == timestamp
            && b.header.nonce < NONCE_LIMIT
            && forall n :: 0 <= n < b.header.nonce ==> !Wins(crypto, previousHash, b.header.merkleRoot, timestamp, n)
  {
    assert IsDigest(crypto.root(Leaves(transactions)));
  }

  // ---- chains of mined blocks ----

  lemma MinedLink(crypto: Crypto, c: seq<Block>, i: nat)
    requires MinedChain(crypto, c)
    requires 0 < i < |c|
    ensures MinedOn(crypto, c[i], c[i - 1].Hash())
    ensures Less(c[i].Hash(), c[i - 1].Hash())
  {
    assert MinedAt(crypto, c, i);
  }

  predicate FallsAt(c: seq<Block>, i: nat)
    requires 0 < i < |c|
  {
    Less(c[i].Hash(), c[i - 1].Hash())
  }

  lemma {:induction false} FallsBelow(c: seq<Block>, i: nat, j: nat)
    requires forall k :: 0 < k < |c| ==> FallsAt(c, k)
    requires i < j < |c|
    ensures Less(c[j].Hash(), c[i].Hash())
  {
    assert FallsAt(c, j);
    if i < j - 1 {
      FallsBelow(c, i, j - 1);
      LessTransitive(c[j].Hash(), c[j - 1].Hash(), c[i].Hash());
    }
  }

  lemma FallingDescends(c: seq<Block>)
    requires forall k :: 0 < k < |c| ==> FallsAt(c, k)
    ensures Descending(c)
  {
    forall i, j | 0 <= i < j < |c| ensures Less(c[j].Hash(), c[i].Hash()) {
      FallsBelow(c, i, j);
    }
  }

  lemma MinedDescends(crypto: Crypto, c: seq<Block>)
    requires MinedChain(crypto, c)
    ensures Descending(c)
  {
    forall k | 0 < k < |c| ensures FallsAt(c, k) { MinedLink(crypto, c, k); }
    FallingDescends(c);
  }

  /** The store's key order is the mined chain backwards. */
  lemma MinedScan(crypto: Crypto, c: seq<Block>)
    requires MinedChain(crypto, c)
    ensures Database.Scan(MapOf(c)) == Reversed(c)
  {
    MinedDescends(crypto, c);
    ScanIsReversedIff(c);
  }

  lemma BelowTipIsNew(c: seq<Block>, h: string, i: nat)
    requires Descending(c) && i < |c| && Less(h, Tip(c).Hash())
    ensures h != c[i].Hash()
  {
    if i < |c| - 1 { LessTransitive(h, Tip(c).Hash(), c[i].Hash()); }
    LessAsymmetric(h, c[i].Hash());
  }

  /** `put` never refuses a block mined on the tip. */
  lemma MinedIsFresh(crypto: Crypto, c: seq<Block>, b: Block)
    requires MinedChain(crypto, c)
    requires MinedOn(crypto, b, Tip(c).Hash())
    ensures b.Hash() !in MapOf(c)
  {
    MinedDescends(crypto, c);
    MapOfMembers(c);
    forall i | 0 <= i < |c| ensures b.Hash() != c[i].Hash() { BelowTipIsNew(c, b.Hash(), i); }
  }

  lemma MinedExtends(crypto: Crypto, c: seq<Block>, b: Block)
    requires MinedChain(crypto, c)
    requires MinedOn(crypto, b, Tip(c).Hash()) && b.Timestamp() > Tip(c).Timestamp()
    ensures MinedChain(crypto, c + [b])
    ensures MapOf(c + [b]) == Database.PutNew(MapOf(c), b.Hash(), b)
  {
    MinedIsFresh(crypto, c, b);
    ExtendWellFormed(Genesis(crypto), c, b);
    MapOfAppend(c, b);
    forall i | 0 < i < |c + [b]| ensures MinedAt(crypto, c + [b], i) {
      if i < |c| { assert MinedAt(crypto, c, i); }
    }
  }

  lemma MinedDigest(crypto: Crypto, c: seq<Block>, i: nat)
    requires crypto.Valid() && MinedChain(crypto, c) && i < |c|
    ensures IsDigest(c[i].Hash())
    ensures i > 0 ==> PROOF_OF_WORK <= c[i].Hash()
  {
    if i > 0 { assert MinedAt(crypto, c, i); }
  }

  lemma {:induction false} ValuesFall(crypto: Crypto, c: seq<Block>, i: nat)
    requires crypto.Valid() && MinedChain(crypto, c) && 1 <= i < |c|
    ensures IsDigest(c[1].Hash()) && IsDigest(c[i].Hash())
    ensures Value(c[i].Hash()) + (i - 1) <= Value(c[1].Hash())
  {
    MinedDigest(crypto, c, 1);
    MinedDigest(crypto, c, i);
    if i > 1 {
      ValuesFall(crypto, c, i - 1);
      MinedLink(crypto, c, i);
      LessIsNumeric(c[i].Hash(), c[i - 1].Hash());
    }
  }

  /** The falling hashes leave room for at most 16^60 blocks after genesis. */
  lemma MinedChainIsBounded(crypto: Crypto, c: seq<Block>)
    requires crypto.Valid() && MinedChain(crypto, c)
    ensures |c| <= 1 + Pow16(60)
  {
    if |c| > 1 {
      ValuesFall(crypto, c, |c| - 1);
      MinedDigest(crypto, c, 1);
      ProofOfWorkBound(c[1].Hash());
    }
  }

  // ---- two nodes ----

  /** The text the hash of block `i` was taken over. */
  function TextAt(c: seq<Block>, i: nat): string
    requires i < |c|
  {
    if i == 0 then GENESIS_TEXT
    else
      var h := c[i].header;
      Preimage(c[i - 1].Hash(), h.merkleRoot, h.timestamp, h.nonce)
  }

  predicate SameDigest(crypto: Crypto, c: seq<Block>, i: nat, d: seq<Block>, j: nat)
    requires i < |c| && j < |d|
  {
    crypto.sha(TextAt(c, i)) == crypto.sha(TextAt(d, j))
  }

  predicate SameHash(c: seq<Block>, i: nat, d: seq<Block>, j: nat)
    requires i < |c| && j < |d|
  {
    c[i].Hash() == d[j].Hash()
  }

  /** SHA-256 does not collide on the texts that occur in the two chains. */
  ghost predicate NoCollision(crypto: Crypto, c: seq<Block>, d: seq<Block>) {
    forall i, j :: 0 <= i < |c| && 0 <= j < |d| && SameDigest(crypto, c, i, d, j) ==> TextAt(c, i) == TextAt(d, j)
  }

  /** Equal in everything the hash covers; timestamp and nonce agree exactly when the widths do. */
  predicate SameMined(a: BlockHeader, b: BlockHeader) {
    && a.hash == b.hash
    && a.previousHash == b.previousHash
    && a.merkleRoot == b.merkleRoot
    && (a.timestamp == b.timestamp && a.nonce == b.nonce <==> |Decimal(a.timestamp)| == |Decimal(b.timestamp)|)
  }

  lemma HashIsOfText(crypto: Crypto, c: seq<Block>, i: nat)
    requires MinedChain(crypto, c) && i < |c|
    ensures c[i].Hash() == crypto.sha(TextAt(c, i))
  {
    if i > 0 { assert MinedAt(crypto, c, i); }
  }

  lemma MinedTextParts(crypto: Crypto, c: seq<Block>, i: nat)
    requires crypto.Valid() && MinedChain(crypto, c) && 0 < i < |c|
    ensures |c[i - 1].Hash()| == |c[i].header.merkleRoot| == 64
    ensures c[i].header.previousHash == c[i - 1].Hash()
    ensures TextAt(c, i) != GENESIS_TEXT
  {
    MinedDigest(crypto, c, i - 1);
    MinedLink(crypto, c, i);
    var h := c[i].header;
    GenesisPreimageDiffers(c[i - 1].Hash(), h.merkleRoot, h.timestamp, h.nonce);
  }

  lemma SameHashSameText(crypto: Crypto, c: seq<Block>, i: nat, d: seq<Block>, j: nat)
    requires crypto.Valid() && MinedChain(crypto, c) && MinedChain(crypto, d)
    requires NoCollision(crypto, c, d)
    requires i < |c| && j < |d| && SameHash(c, i, d, j)
    ensures TextAt(c, i) == TextAt(d, j)
    ensures i == 0 <==> j == 0
    ensures i == 0 ==> SameMined(c[0].header, d[0].header)
  {
    HashIsOfText(crypto, c, i);
    HashIsOfText(crypto, d, j);
    assert SameDigest(crypto, c, i, d, j);
    if i > 0 { MinedTextParts(crypto, c, i); }
    if j > 0 { MinedTextParts(crypto, d, j); }
  }

  lemma SameTextSameLink(crypto: Crypto, c: seq<Block>, i: nat, d: seq<Block>, j: nat)
    requires crypto.Valid() && MinedChain(crypto, c) && MinedChain(crypto, d)
    requires 0 < i < |c| && 0 < j < |d|
    requires TextAt(c, i) == TextAt(d, j) && SameHash(c, i, d, j)
    ensures SameHash(c, i - 1, d, j - 1)
    ensures SameMined(c[i].header, d[j].header)
  {
    MinedTextParts(crypto, c, i);
    MinedTextParts(crypto, d, j);
    var h, h' := c[i].header, d[j].header;
    PreimageInjective(c[i - 1].Hash(), h.merkleRoot, h.timestamp, h.nonce,
                      d[j - 1].Hash(), h'.merkleRoot, h'.timestamp, h'.nonce);
  }

  /** Equal hashes are over equal texts, so they carry equal links, one step further down. */
  lemma SharedLink(crypto: Crypto, c: seq<Block>, i: nat, d: seq<Block>, j: nat)
    requires crypto.Valid() && MinedChain(crypto, c) && MinedChain(crypto, d)
    requires NoCollision(crypto, c, d)
    requires i < |c| && j < |d| && SameHash(c, i, d, j)
    ensures i == 0 <==> j == 0
    ensures i > 0 && j > 0 ==> SameHash(c, i - 1, d, j - 1)
    ensures SameMined(c[i].header, d[j].header)
  {
    SameHashSameText(crypto, c, i, d, j);
    if i > 0 { SameTextSameLink(crypto, c, i, d, j); }
  }

  predicate StepsDown(c: seq<Block>, i: nat, d: seq<Block>, j: nat)
    requires i < |c| && j < |d|
  {
    SameHash(c, i, d, j) ==>
      && (i == 0 <==> j == 0)
      && (i > 0 && j > 0 ==> SameHash(c, i - 1, d, j - 1))
      && SameMined(c[i].header, d[j].header)
  }

  ghost predicate Agree(c: seq<Block>, d: seq<Block>) {
    forall i, j :: 0 <= i < |c| && 0 <= j < |d| ==> StepsDown(c, i, d, j)
  }

  lemma {:induction false} SameHeight(c: seq<Block>, i: nat, d: seq<Block>, j: nat)
    requires Agree(c, d)
    requires i < |c| && j < |d| && SameHash(c, i, d, j)
    ensures i == j
  {
    assert StepsDown(c, i, d, j);
    if i > 0 { SameHeight(c, i - 1, d, j - 1); }
  }

  lemma {:induction false} SameBelow(c: seq<Block>, d: seq<Block>, i: nat, k: nat)
    requires Agree(c, d)
    requires k <= i < |c| && i < |d| && SameHash(c, i, d, i)
    ensures SameMined(c[k].header, d[k].header)
  {
    assert StepsDown(c, i, d, i);
    if k < i { SameBelow(c, d, i - 1, k); }
  }

  lemma MinedChainsAgree(crypto: Crypto, c: seq<Block>, d: seq<Block>)
    requires crypto.Valid() && MinedChain(crypto, c) && MinedChain(crypto, d)
    requires NoCollision(crypto, c, d)
    ensures Agree(c, d)
  {
    forall i, j | 0 <= i < |c| && 0 <= j < |d| ensures StepsDown(c, i, d, j) {
      if SameHash(c, i, d, j) { SharedLink(crypto, c, i, d, j); }
    }
  }

  /** A hash that two nodes' mined chains share sits at one height, and up to it the chains agree. */
  lemma CommonPrefix(crypto: Crypto, c: seq<Block>, i: nat, d: seq<Block>, j: nat)
    requires crypto.Valid() && MinedChain(crypto, c) && MinedChain(crypto, d)
    requires NoCollision(crypto, c, d)
    requires i < |c| && j < |d| && SameHash(c, i, d, j)
    ensures i == j
    ensures forall k :: 0 <= k <= i ==> SameMined(c[k].header, d[k].header)
  {
    MinedChainsAgree(crypto, c, d);
    SameHeight(c, i, d, j);
    forall k | 0 <= k <= i ensures SameMined(c[k].header, d[k].header) {
      SameBelow(c, d, i, k);
    }
  }

  /** Equal roots of blocks of the two chains are roots of equal hashes. */
  ghost predicate NoRootCollision(crypto: Crypto, c: seq<Block>, d: seq<Block>) {
    forall i, j :: 0 <= i < |c| && 0 <= j < |d| && SameRoot(crypto, c[i], d[j]) ==>
                   Leaves(c[i].transactions) == Leaves(d[j].transactions)
  }

  predicate SameRoot(crypto: Crypto, a: Block, b: Block) {
    crypto.root(Leaves(a.transactions)) == crypto.root(Leaves(b.transactions))
  }

  ghost predicate RootedChain(crypto: Crypto, c: seq<Block>) {
    forall i :: 0 < i < |c| ==> IsRooted(crypto, c[i])
  }

  /** Two such chains that share a hash hold the same transaction hashes, in order, up to it. */
  lemma CommonTransactions(crypto: Crypto, c: seq<Block>, i: nat, d: seq<Block>, j: nat)
    requires crypto.Valid() && MinedChain(crypto, c) && MinedChain(crypto, d)
    requires NoCollision(crypto, c, d) && NoRootCollision(crypto, c, d)
    requires RootedChain(crypto, c) && RootedChain(crypto, d)
    requires i < |c| && j < |d| && SameHash(c, i, d, j)
    ensures i == j
    ensures forall k :: 0 <= k <= i ==> Leaves(c[k].transactions) == Leaves(d[k].transactions)
  {
    CommonPrefix(crypto, c, i, d, j);
    forall k | 0 <= k <= i ensures Leaves(c[k].transactions) == Leaves(d[k].transactions) {
      if k == 0 {
        assert c[0] == d[0];
      } else {
        assert IsRooted(crypto, c[k]) && IsRooted(crypto, d[k]);
        assert SameMined(c[k].header, d[k].header);
        assert SameRoot(crypto, c[k], d[k]);
      }
    }
  }

  /**
   * Why timestamps need not agree: a block of timestamp 1668542626, right after genesis, and nonce 11, and
   * one of timestamp 16685426261 and nonce 1, make two mined chains that share its hash.
   */
  lemma SplitTimestamp(crypto: Crypto, root: string)
    requires |root| == 64 && Wins(crypto, Genesis(crypto).Hash(), root, 1668542626, 11)
    ensures var g := Genesis(crypto);
            var hash := BlockHash(crypto, g.Hash(), root, 1668542626, 11);
            var c := [g, Block(BlockHeader(hash, g.Hash(), root, "", 1668542626, 11), [])];
            var d := [g, Block(BlockHeader(hash, g.Hash(), root, "", 16685426261, 1), [])];
            MinedChain(crypto, c) && MinedChain(crypto, d) && NoCollision(crypto, c, d) && SameHash(c, 1, d, 1)
  {
    var g := Genesis(crypto);
    var hash := BlockHash(crypto, g.Hash(), root, 1668542626, 11);
    var a := Block(BlockHeader(hash, g.Hash(), root, "", 1668542626, 11), []);
    var b := Block(BlockHeader(hash, g.Hash(), root, "", 16685426261, 1), []);
    AmbiguousPreimage(g.Hash(), root, 1668542626, 1, 1);
    LessIrreflexive(hash);
    FirstMined(crypto, a);
    FirstMined(crypto, b);
    forall i, j | 0 <= i < 2 && 0 <= j < 2 && SameDigest(crypto, [g, a], i, [g, b], j)
      ensures TextAt([g, a], i) == TextAt([g, b], j)
    {
      SameTextPair(crypto, a, b, i, j);
    }
  }

  lemma FirstMined(crypto: Crypto, b: Block)
    requires MinedOn(crypto, b, Genesis(crypto).Hash()) && b.Timestamp() > Genesis(crypto).Timestamp()
    ensures MinedChain(crypto, [Genesis(crypto), b])
  {
    LessIrreflexive(b.Hash());
    TwoBlocks(Genesis(crypto), b);
    assert MinedAt(crypto, [Genesis(crypto), b], 1);
  }

  lemma SameTextPair(crypto: Crypto, a: Block, b: Block, i: nat, j: nat)
    requires var g := Genesis(crypto);
             && i < 2 && j < 2
             && MinedChain(crypto, [g, a]) && MinedChain(crypto, [g, b]) && a.Hash() == b.Hash()
             && TextAt([g, a], 1) == TextAt([g, b], 1)
             && SameDigest(crypto, [g, a], i, [g, b], j)
    ensures TextAt([Genesis(crypto), a], i) == TextAt([Genesis(crypto), b], j)
  {
    var g := Genesis(crypto);
    HashIsOfText(crypto, [g, a], i);
    HashIsOfText(crypto, [g, b], j);
    assert [g, a][0].Hash() != [g, a][1].Hash();
    assert [g, b][0].Hash() != [g, b][1].Hash();
  }

  /** And there are digests for which it happens, without any collision between different texts. */
  lemma SplitTimestampOccurs() returns (crypto: Crypto, c: seq<Block>, d: seq<Block>)
    ensures crypto.Valid() && MinedChain(crypto, c) && MinedChain(crypto, d) && NoCollision(crypto, c, d)
    ensures |c| == |d| == 2 && SameHash(c, 1, d, 1)
    ensures c[1].Timestamp() != d[1].Timestamp() && c[1].header.nonce != d[1].header.nonce
  {
    var zeros, high := seq(64, _ => '0'), seq(64, _ => 'F');
    crypto := Crypto(text => if text == GENESIS_TEXT then high else zeros, _ => zeros);
    var g := Genesis(crypto);
    assert g.Hash() == high;
    GenesisPreimageDiffers(high, zeros, 1668542626, 11);
    assert Less(zeros, high) by { assert zeros[0] == '0' && high[0] == 'F'; }
    assert Wins(crypto, high, zeros, 1668542626, 11);
    SplitTimestamp(crypto, zeros);
    c := [g, Block(BlockHeader(zeros, high, zeros, "", 1668542626, 11), [])];
    d := [g, Block(BlockHeader(zeros, high, zeros, "", 16685426261, 1), [])];
  }
}

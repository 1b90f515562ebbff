/** The node's block store, and what its scans yield on a store that holds a chain. */
module Blockchain {
  import opened Records
  import opened Database
  import opened Chain
  import opened Hashing
  import Mining

  function HeadersOf(blocks: seq<Block>): (headers: seq<BlockHeader>)
    ensures |headers| == |blocks|
    ensures forall i :: 0 <= i < |blocks| ==> headers[i] == blocks[i].header
  {
    seq(|blocks|, i requires 0 <= i < |blocks| => blocks[i].header)
  }

  function LaterThan(header: BlockHeader): Block -> bool {
    (b: Block) => b.Hash() != "" && b.Timestamp() > header.timestamp
  }

  function NotBefore(timestamp: nat): Block -> bool {
    (b: Block) => b.Timestamp() >= timestamp
  }

  function AllAfter(m: map<string, Block>, header: BlockHeader): seq<BlockHeader> {
    HeadersOf(Filter(Scan(m), LaterThan(header)))
  }

  function BlockHashes(blocks: seq<Block>): set<string> {
    set b | b in blocks :: b.Hash()
  }

  lemma HashesAppend(blocks: seq<Block>, b: Block)
    ensures BlockHashes(blocks + [b]) == BlockHashes(blocks) + {b.Hash()}
  {
  }

  lemma RemovedNext(m: map<string, Block>, removed: seq<Block>, b: Block)
    ensures m - BlockHashes(removed + [b]) == m - BlockHashes(removed) - {b.Hash()}
  {
    HashesAppend(removed, b);
  }

  class BlockStore {
    const blocks: Store<Block>

    /** Opening an empty database writes the genesis block; any other is taken as it is. */
    constructor (database: Store<Block>, crypto: Crypto)
      modifies database
      ensures blocks == database
      ensures database.db == if old(database.db) == map[] then MapOf([Genesis(crypto)]) else old(database.db)
    {
      blocks := database;
      new;
      var size := database.Size();
      if size == 0 {
        var genesis := Genesis(crypto);
        var _ := database.Put(genesis.Hash(), genesis);
        assert MapOf([genesis]) == MapOf([])[genesis.Hash() := genesis] by { MapOfAppend([], genesis); }
      }
    }

    method Last() returns (last: Block)
      ensures last == Latest(blocks.db)
    {
      last := BLANK_BLOCK;
      var values := blocks.Data();
      for i := 0 to |values|
        invariant last == LatestOf(values[..i])
      {
        assert values[..i + 1][..i] == values[..i];
        if values[i].Timestamp() > last.Timestamp() {
          last := values[i];
        }
      }
      assert values[..|values|] == values;
    }

    method GetHeaders() returns (headers: seq<BlockHeader>)
      ensures headers == HeadersOf(Scan(blocks.db))
    {
      headers := [];
      var values := blocks.Data();
      for i := 0 to |values|
        invariant headers == HeadersOf(values[..i])
      {
        headers := headers + [values[i].header];
      }
      assert values[..|values|] == values;
    }

    method GetAllAfter(header: BlockHeader) returns (headers: seq<BlockHeader>)
      ensures headers == AllAfter(blocks.db, header)
    {
      headers := [];
      var values := blocks.Data();
      var later := LaterThan(header);
      for i := 0 to |values|
        invariant headers == HeadersOf(Filter(values[..i], later))
      {
        FilterNext(values, i, later);
        if values[i].Hash() == "" { continue; }
        if values[i].Timestamp() > header.timestamp {
          headers := headers + [values[i].header];
        }
      }
      assert values[..|values|] == values;
    }

    method RemoveAllAfter(header: BlockHeader) returns (removed: seq<Block>)
      modifies blocks
      ensures header.hash !in old(blocks.db) ==> removed == [] && blocks.db == old(blocks.db)
      ensures header.hash in old(blocks.db) ==>
                && removed == Filter(Scan(old(blocks.db)), NotBefore(old(blocks.db)[header.hash].Timestamp()))
                && blocks.db == old(blocks.db) - BlockHashes(removed)
    {
      removed := [];
      var found := blocks.Get(header.hash);
      if found.None? { return []; }
      var from := NotBefore(found.value.Timestamp());
      var values := blocks.Data();
      for i := 0 to |values|
        invariant removed == Filter(values[..i], from)
        invariant blocks.db == old(blocks.db) - BlockHashes(removed)
      {
        FilterNext(values, i, from);
        if values[i].Timestamp() >= found.value.Timestamp() {
          var block := values[i];
          RemovedNext(old(blocks.db), removed, block);
          removed := removed + [block];
          var _ := blocks.Remove(block.Hash());
        }
      }
      assert values[..|values|] == values;
    }
  }

  /** On any store: the headers of exactly the blocks with a hash and a later timestamp. */
  lemma AllAfterIff(m: map<string, Block>, header: BlockHeader, h: BlockHeader)
    ensures h in AllAfter(m, header)
            <==> exists k :: k in m && m[k].header == h && h.hash != "" && h.timestamp > header.timestamp
  {
    var kept := Filter(Scan(m), LaterThan(header));
    FilterMembers(Scan(m), LaterThan(header));
    ScanMembers(m);
    if h in AllAfter(m, header) {
      var i :| 0 <= i < |kept| && AllAfter(m, header)[i] == h;
      assert kept[i] in Scan(m);
    }
    if k :| k in m && m[k].header == h && h.hash != "" && h.timestamp > header.timestamp {
      assert m[k] in kept;
      var i :| 0 <= i < |kept| && kept[i] == m[k];
      assert AllAfter(m, header)[i] == h;
    }
  }

  // ---- the same on a store that holds a chain ----

  /** The filter passes exactly the blocks from height `k` up. */
  ghost predicate IsCut(c: seq<Block>, p: Block -> bool, k: nat) {
    forall j :: 0 <= j < |c| ==> (p(c[j]) <==> j >= k)
  }

  lemma CutUpper(c: seq<Block>, k: nat, p: Block -> bool)
    requires DistinctHashes(c) && k <= |c|
    requires IsCut(c, p, k)
    ensures Where(MapOf(c), p) == MapOf(c[k..])
  {
    var upper := Where(MapOf(c), p);
    MapOfMembers(c);
    forall i | 0 <= i < |c[k..]| ensures c[k..][i].Hash() in upper && upper[c[k..][i].Hash()] == c[k..][i] {
      assert c[k..][i] == c[k + i];
    }
    forall h | h in upper ensures exists i :: 0 <= i < |c[k..]| && c[k..][i].Hash() == h {
      var i :| 0 <= i < |c| && c[i].Hash() == h;
      assert c[k..][i - k].Hash() == h;
    }
    MapOfUnique(c[k..], upper);
  }

  /** A filter that cuts the chain in two selects the scan of the upper part, whatever the key order. */
  lemma FilterCuts(c: seq<Block>, k: nat, p: Block -> bool)
    requires DistinctHashes(c) && k <= |c|
    requires IsCut(c, p, k)
    ensures Filter(Scan(MapOf(c)), p) == Scan(MapOf(c[k..]))
  {
    FilterScan(MapOf(c), p);
    CutUpper(c, k, p);
  }

  lemma CutLower(c: seq<Block>, k: nat)
    requires DistinctHashes(c) && k <= |c|
    ensures MapOf(c) - BlockHashes(c[k..]) == MapOf(c[..k])
  {
    var m, gone := MapOf(c), BlockHashes(c[k..]);
    MapOfMembers(c);
    forall i | 0 <= i < |c| ensures c[i].Hash() in gone <==> i >= k {
      if i >= k { assert c[k..][i - k] == c[i]; }
    }
    forall h | h in m - gone ensures exists i :: 0 <= i < |c[..k]| && c[..k][i].Hash() == h {
      var i :| 0 <= i < |c| && c[i].Hash() == h;
      assert c[..k][i].Hash() == h;
    }
    MapOfUnique(c[..k], m - gone);
  }

  lemma NoBlankHash(genesis: Block, c: seq<Block>, i: nat)
    requires genesis.Hash() != "" && WellFormed(genesis, c) && i < |c|
    ensures c[i].Hash() != ""
  {
    if i > 0 { assert FollowsAt(c, i); }
  }

  /** The blocks that `get_all_after` would keep are those from height `k` up. */
  ghost predicate LaterFrom(c: seq<Block>, header: BlockHeader, k: nat) {
    forall j :: 0 <= j < |c| ==> (c[j].Hash() != "" && c[j].Timestamp() > header.timestamp <==> j >= k)
  }

  lemma LaterIsAbove(genesis: Block, c: seq<Block>, i: nat)
    requires genesis.Hash() != "" && WellFormed(genesis, c) && i < |c|
    ensures LaterFrom(c, c[i].header, i + 1)
  {
    forall j | 0 <= j < |c| ensures c[j].Hash() != "" && c[j].Timestamp() > c[i].header.timestamp <==> j >= i + 1 {
      NoBlankHash(genesis, c, j);
      if j < i { assert c[j].Timestamp() < c[i].Timestamp(); }
    }
  }

  lemma AllAfterCut(genesis: Block, c: seq<Block>, header: BlockHeader, k: nat)
    requires WellFormed(genesis, c) && k <= |c| && LaterFrom(c, header, k)
    ensures AllAfter(MapOf(c), header) == HeadersOf(Scan(MapOf(c[k..])))
  {
    assert IsCut(c, LaterThan(header), k);
    FilterCuts(c, k, LaterThan(header));
  }

  /** `get_all_after` a block of the chain yields the headers of exactly the blocks above it. */
  lemma AllAfterOnChain(genesis: Block, c: seq<Block>, i: nat)
    requires genesis.Hash() != "" && WellFormed(genesis, c) && i < |c|
    ensures AllAfter(MapOf(c), c[i].header) == HeadersOf(Scan(MapOf(c[i + 1..])))
  {
    assert LaterFrom(c, c[i].header, i + 1) by { LaterIsAbove(genesis, c, i); }
    AllAfterCut(genesis, c, c[i].header, i + 1);
  }

  lemma NotBeforeIsFrom(genesis: Block, c: seq<Block>, i: nat)
    requires WellFormed(genesis, c) && i < |c|
    ensures IsCut(c, NotBefore(c[i].Timestamp()), i)
  {
    forall j | 0 <= j < |c| ensures NotBefore(c[i].Timestamp())(c[j]) <==> j >= i {
      if j < i { assert c[j].Timestamp() < c[i].Timestamp(); }
    }
  }

  /** `remove_all_after` a block removes it and everything above it, and leaves the chain below it. */
  lemma RemoveAllAfterOnChain(genesis: Block, c: seq<Block>, i: nat)
    requires WellFormed(genesis, c) && i < |c|
    ensures var removed := Filter(Scan(MapOf(c)), NotBefore(c[i].Timestamp()));
            && removed == Scan(MapOf(c[i..]))
            && multiset(removed) == multiset(c[i..])
            && MapOf(c) - BlockHashes(removed) == MapOf(c[..i])
    ensures i > 0 ==> WellFormed(genesis, c[..i])
  {
    NotBeforeIsFrom(genesis, c, i);
    FilterCuts(c, i, NotBefore(c[i].Timestamp()));
    CutLower(c, i);
    ScanIsPermutation(c[i..]);
    ScanOfChain(c[i..]);
    assert BlockHashes(Scan(MapOf(c[i..]))) == BlockHashes(c[i..]);
    if i > 0 { PrefixWellFormed(genesis, c, i); }
  }

  /** On a chain of mined blocks the scans run backwards along the chain. */
  lemma MinedScanRunsBackwards(crypto: Crypto, c: seq<Block>, k: nat)
    requires Mining.MinedChain(crypto, c) && k <= |c|
    ensures Scan(MapOf(c[k..])) == Reversed(c[k..])
  {
    Mining.MinedDescends(crypto, c);
    ScanIsReversedIff(c[k..]);
  }

  lemma AllAfterFollowsScan(genesis: Block, c: seq<Block>, i: nat, scanned: seq<Block>)
    requires genesis.Hash() != "" && WellFormed(genesis, c) && i < |c|
    requires Scan(MapOf(c[i + 1..])) == scanned
    ensures AllAfter(MapOf(c), c[i].header) == HeadersOf(scanned)
  {
    AllAfterOnChain(genesis, c, i);
  }

  lemma MinedAllAfterRunsBackwards(crypto: Crypto, c: seq<Block>, i: nat)
    requires crypto.Valid() && Mining.MinedChain(crypto, c) && i < |c|
    ensures AllAfter(MapOf(c), c[i].header) == HeadersOf(Reversed(c[i + 1..]))
  {
    MinedScanRunsBackwards(crypto, c, i + 1);
    AllAfterFollowsScan(Genesis(crypto), c, i, Reversed(c[i + 1..]));
  }

  lemma MinedRemovalRunsBackwards(crypto: Crypto, c: seq<Block>, i: nat)
    requires Mining.MinedChain(crypto, c) && i < |c|
    ensures Filter(Scan(MapOf(c)), NotBefore(c[i].Timestamp())) == Reversed(c[i..])
  {
    RemoveAllAfterOnChain(Genesis(crypto), c, i);
    MinedScanRunsBackwards(crypto, c, i);
  }
}

/** The initial block download: choosing a peer, fetching its blocks, storing them unvalidated. */
module Download {
  import opened Records
  import opened Database
  import opened Chain
  import Growth
  import opened Hashing
  import opened Blockchain

  // ---- `request_headers` ----

  datatype Answer = Answer(headers: seq<BlockHeader>, peer: string)

  /** `emplace` into a map ordered by list size alone: an equally long list counts as present. */
  function Emplace(byLength: seq<Answer>, a: Answer): seq<Answer> {
    if |byLength| == 0 then [a]
    else if |a.headers| > |byLength[0].headers| then [a] + byLength
    else if |a.headers| == |byLength[0].headers| then byLength
    else [byLength[0]] + Emplace(byLength[1..], a)
  }

  predicate IsFirstLongest(answers: seq<Answer>, k: nat)
    requires k < |answers|
  {
    && (forall j :: 0 <= j < |answers| ==> |answers[j].headers| <= |answers[k].headers|)
    && (forall j :: 0 <= j < k ==> |answers[j].headers| < |answers[k].headers|)
  }

  /** A longest header list, from the first peer to answer with one that long. */
  method RequestHeaders(answers: seq<Answer>) returns (best: Answer)
    requires |answers| > 0
    ensures exists k :: 0 <= k < |answers| && best == answers[k] && IsFirstLongest(answers, k)
  {
    var headerPeerMap: seq<Answer> := [];
    ghost var k := 0;
    for i := 0 to |answers|
      invariant i == 0 ==> headerPeerMap == []
      invariant i > 0 ==> |headerPeerMap| > 0 && k < i && headerPeerMap[0] == answers[k]
      invariant i > 0 ==> IsFirstLongest(answers[..i], k)
    {
      if i == 0 || |answers[i].headers| > |headerPeerMap[0].headers| { k := i; }
      headerPeerMap := Emplace(headerPeerMap, answers[i]);
      assert answers[..i + 1] == answers[..i] + [answers[i]];
    }
    assert answers[..|answers|] == answers;
    best := headerPeerMap[0];
  }

  // ---- `download_blocks` and the puts ----

  /** The blocks a peer returns, each request answered from its store as it then is. */
  function Fetch(views: seq<map<string, Block>>, headers: seq<BlockHeader>): seq<Block>
    requires |views| == |headers|
  {
    if |headers| == 0 then []
    else
      var n := |headers| - 1;
      var before := Fetch(views[..n], headers[..n]);
      if headers[n].hash in views[n] then before + [views[n][headers[n].hash]] else before
  }

  method DownloadBlocks(views: seq<map<string, Block>>, headers: seq<BlockHeader>) returns (blocks: seq<Block>)
    requires |views| == |headers|
    ensures blocks == Fetch(views, headers)
  {
    blocks := [];
    for i := 0 to |headers|
      invariant blocks == Fetch(views[..i], headers[..i])
    {
      assert views[..i + 1][..i] == views[..i] && headers[..i + 1][..i] == headers[..i];
      if headers[i].hash in views[i] {
        blocks := blocks + [views[i][headers[i].hash]];
      }
    }
    assert views[..|headers|] == views && headers[..|headers|] == headers;
  }

  function PutAll(m: map<string, Block>, blocks: seq<Block>): map<string, Block> {
    if |blocks| == 0 then m
    else
      var b := blocks[|blocks| - 1];
      PutNew(PutAll(m, blocks[..|blocks| - 1]), b.Hash(), b)
  }

  method StoreBlocks(chain: Store<Block>, blocks: seq<Block>)
    modifies chain
    ensures chain.db == PutAll(old(chain.db), blocks)
  {
    for i := 0 to |blocks|
      invariant chain.db == PutAll(old(chain.db), blocks[..i])
    {
      assert blocks[..i + 1][..i] == blocks[..i];
      var _ := chain.Put(blocks[i].Hash(), blocks[i]);
    }
    assert blocks[..|blocks|] == blocks;
  }

  /** Puts of blocks that all sit in `whole` fill in their keys, in any order and with any repeats. */
  lemma {:induction false} PutAllWithin(m: map<string, Block>, blocks: seq<Block>, whole: map<string, Block>)
    requires forall b :: b in blocks ==> b.Hash() in whole && whole[b.Hash()] == b
    requires forall k :: k in m ==> k in whole && whole[k] == m[k]
    ensures PutAll(m, blocks).Keys == m.Keys + BlockHashes(blocks)
    ensures forall k :: k in PutAll(m, blocks) ==> k in whole && whole[k] == PutAll(m, blocks)[k]
  {
    if |blocks| > 0 {
      var init, b := blocks[..|blocks| - 1], blocks[|blocks| - 1];
      PutAllWithin(m, init, whole);
      assert blocks == init + [b];
      HashesAppend(init, b);
    }
  }

  // ---- an honest peer ----

  /** A store in which every block of `d` can still be looked up: the peer's own, now or later. */
  ghost predicate Serves(view: map<string, Block>, d: seq<Block>) {
    forall i :: 0 <= i < |d| ==> d[i].Hash() in view && view[d[i].Hash()] == d[i]
  }

  /** A peer whose chain has meanwhile grown still serves every block it announced. */
  lemma GrownPeerServes(genesis: Block, d: seq<Block>, grown: seq<Block>)
    requires WellFormed(genesis, grown) && d <= grown
    ensures Serves(MapOf(grown), d)
  {
    MapOfMembers(grown);
  }

  ghost predicate IsAbove(header: BlockHeader, d: seq<Block>, k: nat) {
    exists j :: k <= j < |d| && d[j].header == header
  }

  /** The headers of exactly the blocks of `d` from height `k` up, in any order. */
  ghost predicate Announces(headers: seq<BlockHeader>, d: seq<Block>, k: nat) {
    && (forall i :: 0 <= i < |headers| ==> IsAbove(headers[i], d, k))
    && (forall j :: k <= j < |d| ==> d[j].header in headers)
  }

  lemma {:induction false} FetchServed(views: seq<map<string, Block>>, headers: seq<BlockHeader>, d: seq<Block>, k: nat)
    requires |views| == |headers| && DistinctHashes(d) && k <= |d|
    requires forall i :: 0 <= i < |views| ==> Serves(views[i], d)
    requires forall i :: 0 <= i < |headers| ==> IsAbove(headers[i], d, k)
    ensures |Fetch(views, headers)| == |headers|
    ensures forall i :: 0 <= i < |headers| ==> Fetch(views, headers)[i].header == headers[i]
    ensures forall b :: b in Fetch(views, headers) ==> b in d[k..]
  {
    if |headers| > 0 {
      var n := |headers| - 1;
      FetchServed(views[..n], headers[..n], d, k);
      assert IsAbove(headers[n], d, k);
      var j :| k <= j < |d| && d[j].header == headers[n];
      assert Serves(views[n], d);
      assert d[k..][j - k] == d[j];
    }
  }

  /** What an honest peer's blocks make of the local store: the local chain's keys and theirs. */
  lemma FetchedHashes(views: seq<map<string, Block>>, headers: seq<BlockHeader>, d: seq<Block>, k: nat)
    requires |views| == |headers| && DistinctHashes(d) && k <= |d|
    requires forall i :: 0 <= i < |views| ==> Serves(views[i], d)
    requires Announces(headers, d, k)
    ensures forall b :: b in Fetch(views, headers) <==> b in d[k..]
    ensures BlockHashes(Fetch(views, headers)) == BlockHashes(d[k..])
  {
    FetchServed(views, headers, d, k);
    var blocks := Fetch(views, headers);
    forall b | b in d[k..] ensures b in blocks {
      var j :| 0 <= j < |d[k..]| && d[k..][j] == b;
      assert d[k + j].header in headers;
      var i :| 0 <= i < |headers| && headers[i] == b.header;
      assert blocks[i] in d[k..] && blocks[i].Hash() == b.Hash();
      var j' :| 0 <= j' < |d[k..]| && d[k..][j'] == blocks[i];
      assert d[k + j'].Hash() == d[k + j].Hash();
    }
  }

  /**
   * A chain `c`, then the peer's blocks from height `k` on, none of whose hashes `c` has:
   * the store comes out as the store of the concatenation, in whatever order they arrive.
   */
  lemma DownloadAppends(
    c: seq<Block>, d: seq<Block>, k: nat, views: seq<map<string, Block>>, headers: seq<BlockHeader>)
    requires |views| == |headers| && DistinctHashes(d) && k <= |d|
    requires DistinctHashes(c + d[k..])
    requires forall i :: 0 <= i < |views| ==> Serves(views[i], d)
    requires Announces(headers, d, k)
    ensures PutAll(MapOf(c), Fetch(views, headers)) == MapOf(c + d[k..])
  {
    FetchedHashes(views, headers, d, k);
    PutsConcat(c, d[k..], Fetch(views, headers));
  }

  lemma PutsConcat(c: seq<Block>, upper: seq<Block>, blocks: seq<Block>)
    requires DistinctHashes(c + upper)
    requires forall b :: b in blocks <==> b in upper
    requires BlockHashes(blocks) == BlockHashes(upper)
    ensures PutAll(MapOf(c), blocks) == MapOf(c + upper)
  {
    var e := c + upper;
    forall i, j | 0 <= i < j < |c| ensures c[i].Hash() != c[j].Hash() {
      assert e[i] == c[i] && e[j] == c[j];
    }
    ConcatHolds(c, upper);
    PutAllWithin(MapOf(c), blocks, MapOf(e));
  }

  lemma ConcatHolds(c: seq<Block>, d: seq<Block>)
    requires DistinctHashes(c) && DistinctHashes(c + d)
    ensures forall h :: h in MapOf(c) ==> h in MapOf(c + d) && MapOf(c + d)[h] == MapOf(c)[h]
    ensures forall b :: b in d ==> b.Hash() in MapOf(c + d) && MapOf(c + d)[b.Hash()] == b
    ensures MapOf(c + d).Keys == MapOf(c).Keys + BlockHashes(d)
  {
    var e := c + d;
    MapOfMembers(c);
    MapOfMembers(e);
    forall h | h in MapOf(c) ensures h in MapOf(e) && MapOf(e)[h] == MapOf(c)[h] {
      var i :| 0 <= i < |c| && c[i].Hash() == h;
      assert e[i] == c[i];
    }
    forall b | b in d ensures b.Hash() in MapOf(e) && MapOf(e)[b.Hash()] == b {
      var i :| 0 <= i < |d| && d[i] == b;
      assert e[|c| + i] == b;
    }
    forall h | h in MapOf(e) ensures h in MapOf(c).Keys + BlockHashes(d) {
      var i :| 0 <= i < |e| && e[i].Hash() == h;
      if i < |c| { assert c[i].Hash() == h; } else { assert d[i - |c|].Hash() == h; }
    }
  }

  /**
   * The download converges: from a prefix of the peer's chain, the blocks announced at header-request
   * time, fetched in any order while the peer may grow, make the local store equal to the peer's.
   */
  lemma DownloadConverges(
    genesis: Block, c: seq<Block>, d: seq<Block>, views: seq<map<string, Block>>, headers: seq<BlockHeader>)
    requires WellFormed(genesis, d) && c <= d
    requires |views| == |headers| && (forall i :: 0 <= i < |views| ==> Serves(views[i], d))
    requires Announces(headers, d, |c|)
    ensures PutAll(MapOf(c), Fetch(views, headers)) == MapOf(d)
  {
    assert d == c + d[|c|..];
    DownloadAppends(c, d, |c|, views, headers);
  }

  /** `get_all_after` on the peer's store announces exactly the blocks above a given height. */
  lemma AllAfterAnnounces(genesis: Block, d: seq<Block>, header: BlockHeader, k: nat)
    requires genesis.Hash() != "" && WellFormed(genesis, d) && k <= |d|
    requires forall j :: 0 <= j < |d| ==> (d[j].Timestamp() > header.timestamp <==> j >= k)
    ensures Announces(AllAfter(MapOf(d), header), d, k)
  {
    forall j | 0 <= j < |d| ensures d[j].Hash() != "" { NoBlankHash(genesis, d, j); }
    AllAfterCut(genesis, d, header, k);
    ScanAnnounces(d, k);
  }

  lemma ScanAnnounces(d: seq<Block>, k: nat)
    requires DistinctHashes(d) && k <= |d|
    ensures Announces(HeadersOf(Scan(MapOf(d[k..]))), d, k)
  {
    var blocks := Scan(MapOf(d[k..]));
    var headers := HeadersOf(blocks);
    ScanOfChain(d[k..]);
    forall i | 0 <= i < |headers| ensures IsAbove(headers[i], d, k) {
      assert blocks[i] in d[k..];
      var j :| 0 <= j < |d[k..]| && d[k..][j] == blocks[i];
      assert d[k + j].header == headers[i];
    }
    forall j | k <= j < |d| ensures d[j].header in headers {
      assert d[k..][j - k] == d[j] && d[j] in blocks;
      var i :| 0 <= i < |blocks| && blocks[i] == d[j];
      assert headers[i] == d[j].header;
    }
  }

  // ---- the exchange with one peer ----

  /** The peer's store at each block request, from the first on. */
  type View = nat -> map<string, Block>

  function Views(view: View, n: nat): seq<map<string, Block>> {
    seq(n, i requires 0 <= i < n => view(i))
  }

  /** The blocks a download brings: ask with the local `last`, then for each announced block in turn. */
  ghost function Downloads(m: map<string, Block>, peer: seq<Block>, view: View): seq<Block> {
    var headers := AllAfter(MapOf(peer), Latest(m).header);
    Fetch(Views(view, |headers|), headers)
  }

  ghost predicate ServesThroughout(view: View, peer: seq<Block>) {
    forall i: nat :: Serves(view(i), peer)
  }

  /** Both ends together: ask with the local tip, fetch what is announced, and the stores agree. */
  lemma InitialDownloadConverges(crypto: Crypto, c: seq<Block>, d: seq<Block>, view: View)
    requires crypto.Valid() && WellFormed(Genesis(crypto), d) && |c| > 0 && c <= d
    requires ServesThroughout(view, d)
    ensures PutAll(MapOf(c), Downloads(MapOf(c), d, view)) == MapOf(d)
  {
    var genesis := Genesis(crypto);
    assert c == d[..|c|];
    PrefixWellFormed(genesis, d, |c|);
    LastIsTip(genesis, c);
    AllAfterAnnounces(genesis, d, Tip(c).header, |c|);
    var headers := AllAfter(MapOf(d), Tip(c).header);
    DownloadConverges(genesis, c, d, Views(view, |headers|), headers);
  }

  // ---- whatever was downloaded ----

  /** The first block of each hash that the store does not have. */
  function NewBlocks(m: map<string, Block>, blocks: seq<Block>): map<string, Block> {
    PutAll(map[], blocks) - m.Keys
  }

  lemma {:induction false} PutAllGrows(m: map<string, Block>, blocks: seq<Block>)
    ensures Keeps(m, PutAll(m, blocks))
    ensures KeyedByHash(m) ==> KeyedByHash(PutAll(m, blocks))
  {
    if |blocks| > 0 { PutAllGrows(m, blocks[..|blocks| - 1]); }
  }

  lemma {:induction false} NewBlocksAreAdded(m: map<string, Block>, blocks: seq<Block>)
    ensures PutAll(m, blocks) - m.Keys == NewBlocks(m, blocks)
  {
    if |blocks| == 0 {
      assert m - m.Keys == map[];
    } else {
      var n := |blocks| - 1;
      NewBlocksAreAdded(m, blocks[..n]);
      PutAside(PutAll(m, blocks[..n]), m.Keys, blocks[n].Hash(), blocks[n]);
      PutAside(PutAll(map[], blocks[..n]), m.Keys, blocks[n].Hash(), blocks[n]);
    }
  }

  lemma PutAside(m: map<string, Block>, others: set<string>, h: string, b: Block)
    ensures PutNew(m, h, b) - others == if h in others then m - others else PutNew(m - others, h, b)
  {
  }

  /**
   * The downloaded blocks are stored unvalidated. Whatever they are and whoever sent them, the store
   * still holds a chain exactly when the new ones are linked, and then one that extends the local chain.
   */
  lemma DownloadKeepsChainIff(genesis: Block, c: seq<Block>, blocks: seq<Block>)
    requires WellFormed(genesis, c)
    ensures var m := PutAll(MapOf(c), blocks);
            && (IsChain(genesis, m) <==> Growth.Linked(Tip(c), NewBlocks(MapOf(c), blocks)))
            && (IsChain(genesis, m) ==> c <= SequenceOf(genesis, m))
  {
    MapOfHashes(c);
    PutAllGrows(MapOf(c), blocks);
    NewBlocksAreAdded(MapOf(c), blocks);
    Growth.GrownIsChainIff(genesis, c, PutAll(MapOf(c), blocks));
  }

  // ---- a peer on a fork ----

  /** One hash, one block, across the two chains. */
  ghost predicate HashDetermines(c: seq<Block>, d: seq<Block>) {
    forall i, j :: 0 <= i < |c| && 0 <= j < |d| && c[i].Hash() == d[j].Hash() ==> c[i] == d[j]
  }

  /** The first announced block continues the local tip, or nothing is announced. */
  predicate Continues(c: seq<Block>, d: seq<Block>, k: nat)
    requires |c| > 0 && k <= |d|
  {
    k == |d| || d[k].header.previousHash == Tip(c).Hash()
  }

  lemma ForkConcat(genesis: Block, c: seq<Block>, d: seq<Block>, k: nat)
    requires WellFormed(genesis, c) && WellFormed(genesis, d) && HashDetermines(c, d)
    requires k <= |d| && forall j :: k <= j < |d| ==> d[j].Timestamp() > Tip(c).Timestamp()
    ensures Increasing(c + d[k..]) && DistinctHashes(c + d[k..])
  {
    var e := c + d[k..];
    forall i, j | 0 <= i < j < |e|
      ensures e[i].Timestamp() < e[j].Timestamp() && e[i].Hash() != e[j].Hash()
    {
      if i < |c| <= j {
        var b := d[k + (j - |c|)];
        assert e[i] == c[i] && e[j] == b;
        assert c[i].Timestamp() <= Tip(c).Timestamp() < b.Timestamp();
      } else if |c| <= i {
        assert e[i] == d[k + (i - |c|)] && e[j] == d[k + (j - |c|)];
      } else {
        assert e[i] == c[i] && e[j] == c[j];
      }
    }
  }

  lemma ForkLinks(genesis: Block, c: seq<Block>, d: seq<Block>, k: nat)
    requires WellFormed(genesis, c) && WellFormed(genesis, d) && HashDetermines(c, d)
    requires k <= |d| && forall j :: k <= j < |d| ==> d[j].Timestamp() > Tip(c).Timestamp()
    ensures WellFormed(genesis, c + d[k..]) <==> Continues(c, d, k)
  {
    var e := c + d[k..];
    ForkConcat(genesis, c, d, k);
    if k < |d| {
      assert e[|c|] == d[k] && e[|c| - 1] == Tip(c);
      if WellFormed(genesis, e) { assert FollowsAt(e, |c|); }
      assert d[0].Timestamp() <= Tip(c).Timestamp() by { assert d[0] == c[0]; }
      assert FollowsAt(d, k);
    }
    if Continues(c, d, k) {
      forall i | 0 < i < |e| ensures FollowsAt(e, i) {
        if i < |c| { assert FollowsAt(c, i); }
        if i > |c| { assert FollowsAt(d, k + (i - |c|)); }
      }
    }
  }

  /**
   * A peer with a chain of its own, on which no local hash stands for another block: the store still
   * holds a chain exactly when the first announced block links to the local tip.
   */
  lemma PeerKeepsChainIff(
    genesis: Block, c: seq<Block>, d: seq<Block>, k: nat, views: seq<map<string, Block>>, headers: seq<BlockHeader>)
    requires WellFormed(genesis, c) && WellFormed(genesis, d) && HashDetermines(c, d)
    requires k <= |d| && forall j :: k <= j < |d| ==> d[j].Timestamp() > Tip(c).Timestamp()
    requires |views| == |headers| && (forall i :: 0 <= i < |views| ==> Serves(views[i], d))
    requires Announces(headers, d, k)
    ensures IsChain(genesis, PutAll(MapOf(c), Fetch(views, headers))) <==> Continues(c, d, k)
    ensures PutAll(MapOf(c), Fetch(views, headers)) == MapOf(c + d[k..])
  {
    ForkConcat(genesis, c, d, k);
    DownloadAppends(c, d, k, views, headers);
    ForkLinks(genesis, c, d, k);
    IsChainIff(genesis, c + d[k..]);
  }

  lemma IsChainIff(genesis: Block, e: seq<Block>)
    requires Increasing(e) && DistinctHashes(e)
    ensures IsChain(genesis, MapOf(e)) <==> WellFormed(genesis, e)
  {
    if IsChain(genesis, MapOf(e)) {
      var f :| WellFormed(genesis, f) && MapOf(e) == MapOf(f);
      ChainUnique(e, f);
    }
  }

  /** `k` is the first height of the peer's chain later than the local `last`. */
  ghost predicate FirstLater(m: map<string, Block>, d: seq<Block>, k: nat) {
    k <= |d| && forall j :: 0 <= j < |d| ==> (d[j].Timestamp() > Latest(m).Timestamp() <==> j >= k)
  }

  /** The same for the whole exchange: a peer that is behind announces nothing, and nothing changes. */
  lemma ExchangeKeepsChainIff(crypto: Crypto, c: seq<Block>, d: seq<Block>, view: View, k: nat)
    requires crypto.Valid() && WellFormed(Genesis(crypto), c) && WellFormed(Genesis(crypto), d)
    requires HashDetermines(c, d) && ServesThroughout(view, d) && FirstLater(MapOf(c), d, k)
    ensures var m := PutAll(MapOf(c), Downloads(MapOf(c), d, view));
            && (IsChain(Genesis(crypto), m) <==> Continues(c, d, k))
            && m == MapOf(c + d[k..])
  {
    LastIsTip(Genesis(crypto), c);
    AllAfterAnnounces(Genesis(crypto), d, Tip(c).header, k);
    var headers := AllAfter(MapOf(d), Tip(c).header);
    PeerKeepsChainIff(Genesis(crypto), c, d, k, Views(view, |headers|), headers);
  }
}

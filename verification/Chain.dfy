/** The abstract chain, a sequence of blocks, and the hash-keyed map that stands for it. */
module Chain {
  import opened Keys
  import opened Records
  import opened Database

  const PROOF_OF_WORK := "0000"

  predicate Follows(b: Block, tip: Block) {
    && b.Timestamp() > tip.Timestamp()
    && PROOF_OF_WORK <= b.Hash()
    && b.header.previousHash == tip.Hash()
  }

  predicate FollowsAt(c: seq<Block>, i: nat)
    requires 0 < i < |c|
  {
    Follows(c[i], c[i - 1])
  }

  function Tip(c: seq<Block>): Block
    requires |c| > 0
  {
    c[|c| - 1]
  }

  ghost predicate DistinctHashes(c: seq<Block>) {
    forall i, j :: 0 <= i < j < |c| ==> c[i].Hash() != c[j].Hash()
  }

  ghost predicate Increasing(c: seq<Block>) {
    forall i, j :: 0 <= i < j < |c| ==> c[i].Timestamp() < c[j].Timestamp()
  }

  /** One linear chain: genesis first, every later block following its predecessor. */
  ghost predicate WellFormed(genesis: Block, c: seq<Block>) {
    && genesis.Timestamp() > 0
    && |c| > 0
    && c[0] == genesis
    && Increasing(c)
    && DistinctHashes(c)
    && forall i :: 0 < i < |c| ==> FollowsAt(c, i)
  }

  /** The store that holds exactly the blocks of `c`, each under its own hash. */
  ghost function MapOf(c: seq<Block>): (m: map<string, Block>) {
    if |c| == 0 then map[]
    else MapOf(c[..|c| - 1])[c[|c| - 1].Hash() := c[|c| - 1]]
  }

  lemma {:induction false} MapOfMembers(c: seq<Block>)
    requires DistinctHashes(c)
    ensures forall i :: 0 <= i < |c| ==> c[i].Hash() in MapOf(c) && MapOf(c)[c[i].Hash()] == c[i]
    ensures forall k :: k in MapOf(c) ==> exists i :: 0 <= i < |c| && c[i].Hash() == k
  {
    if |c| > 0 {
      var init := c[..|c| - 1];
      MapOfMembers(init);
      forall k | k in MapOf(c) ensures exists i :: 0 <= i < |c| && c[i].Hash() == k {
        if k in MapOf(init) {
          var i :| 0 <= i < |init| && init[i].Hash() == k;
          assert c[i].Hash() == k;
        }
      }
    }
  }

  ghost predicate IsChain(genesis: Block, m: map<string, Block>) {
    exists c :: WellFormed(genesis, c) && m == MapOf(c)
  }

  ghost predicate KeyedByHash(m: map<string, Block>) {
    forall k :: k in m ==> m[k].Hash() == k
  }

  lemma {:induction false} MapOfHashes(c: seq<Block>)
    ensures KeyedByHash(MapOf(c))
  {
    if |c| > 0 { MapOfHashes(c[..|c| - 1]); }
  }

  lemma MapOfAppend(c: seq<Block>, b: Block)
    ensures MapOf(c + [b]) == MapOf(c)[b.Hash() := b]
  {
    assert (c + [b])[..|c|] == c;
  }

  /** A map that holds the blocks of `c` under their hashes and nothing else is `MapOf(c)`. */
  lemma MapOfUnique(c: seq<Block>, m: map<string, Block>)
    requires DistinctHashes(c)
    requires forall i :: 0 <= i < |c| ==> c[i].Hash() in m && m[c[i].Hash()] == c[i]
    requires forall k :: k in m ==> exists i :: 0 <= i < |c| && c[i].Hash() == k
    ensures m == MapOf(c)
  {
    MapOfMembers(c);
  }

  lemma PrefixWellFormed(genesis: Block, c: seq<Block>, k: nat)
    requires WellFormed(genesis, c) && 0 < k <= |c|
    ensures WellFormed(genesis, c[..k])
  {
    forall i | 0 < i < k ensures FollowsAt(c[..k], i) {
      assert FollowsAt(c, i);
    }
  }

  lemma ExtendWellFormed(genesis: Block, c: seq<Block>, b: Block)
    requires WellFormed(genesis, c)
    requires Follows(b, Tip(c))
    requires b.Hash() !in MapOf(c)
    ensures WellFormed(genesis, c + [b])
  {
    var d := c + [b];
    MapOfMembers(c);
    assert forall i :: 0 <= i < |c| ==> c[i].Timestamp() <= Tip(c).Timestamp() && c[i].Hash() != b.Hash();
    ExtendOrdered(c, b);
    forall i | 0 < i < |d| ensures FollowsAt(d, i) {
      if i < |c| { assert FollowsAt(c, i); }
    }
  }

  lemma ExtendOrdered(c: seq<Block>, b: Block)
    requires Increasing(c) && DistinctHashes(c)
    requires forall i :: 0 <= i < |c| ==> c[i].Timestamp() < b.Timestamp() && c[i].Hash() != b.Hash()
    ensures Increasing(c + [b]) && DistinctHashes(c + [b])
  {
  }

  lemma TwoBlocks(g: Block, b: Block)
    requires g.Timestamp() > 0 && Follows(b, g) && b.Hash() != g.Hash()
    ensures WellFormed(g, [g, b])
  {
    assert FollowsAt([g, b], 1);
  }

  // ---- `last`: the scan for the largest timestamp ----

  function LatestOf(blocks: seq<Block>): Block {
    if |blocks| == 0 then BLANK_BLOCK
    else
      var best := LatestOf(blocks[..|blocks| - 1]);
      var b := blocks[|blocks| - 1];
      if b.Timestamp() > best.Timestamp() then b else best
  }

  function Latest(m: map<string, Block>): Block {
    LatestOf(Scan(m))
  }

  lemma {:induction false} LatestOfIsMaximum(blocks: seq<Block>)
    ensures forall b :: b in blocks ==> b.Timestamp() <= LatestOf(blocks).Timestamp()
    ensures LatestOf(blocks) in blocks || LatestOf(blocks) == BLANK_BLOCK
  {
    if |blocks| > 0 {
      LatestOfIsMaximum(blocks[..|blocks| - 1]);
      assert blocks == blocks[..|blocks| - 1] + [blocks[|blocks| - 1]];
    }
  }

  lemma LatestOfIs(blocks: seq<Block>, tip: Block)
    requires tip in blocks && tip.Timestamp() > 0
    requires forall b :: b in blocks ==> b == tip || b.Timestamp() < tip.Timestamp()
    ensures LatestOf(blocks) == tip
  {
    LatestOfIsMaximum(blocks);
  }

  /** On any store `last` is the first block of the scan with the largest timestamp, blank if none is positive. */
  lemma {:induction false} LatestOfIsFirst(blocks: seq<Block>)
    ensures (LatestOf(blocks) == BLANK_BLOCK && forall b :: b in blocks ==> b.Timestamp() == 0)
         || exists i :: 0 <= i < |blocks| && LatestOf(blocks) == blocks[i] && IsFirstLatest(blocks, i)
  {
    if |blocks| > 0 {
      var n := |blocks| - 1;
      LatestOfIsFirst(blocks[..n]);
      assert blocks == blocks[..n] + [blocks[n]];
      if blocks[n].Timestamp() > LatestOf(blocks[..n]).Timestamp() {
        LatestOfIsMaximum(blocks[..n]);
        assert IsFirstLatest(blocks, n);
      } else if i :| 0 <= i < n && LatestOf(blocks[..n]) == blocks[..n][i] && IsFirstLatest(blocks[..n], i) {
        assert IsFirstLatest(blocks, i);
      }
    }
  }

  predicate IsFirstLatest(blocks: seq<Block>, i: nat)
    requires i < |blocks|
  {
    && blocks[i].Timestamp() > 0
    && (forall j :: 0 <= j < |blocks| ==> blocks[j].Timestamp() <= blocks[i].Timestamp())
    && (forall j :: 0 <= j < i ==> blocks[j].Timestamp() < blocks[i].Timestamp())
  }

  lemma ScanOfChain(c: seq<Block>)
    requires DistinctHashes(c)
    ensures forall b :: b in Scan(MapOf(c)) <==> b in c
  {
    MapOfMembers(c);
    ScanMembers(MapOf(c));
  }

  /** On a chain, `last` finds its final element, in whatever order the hashes are scanned. */
  lemma LastIsTip(genesis: Block, c: seq<Block>)
    requires WellFormed(genesis, c)
    ensures Latest(MapOf(c)) == Tip(c)
  {
    ScanOfChain(c);
    forall b | b in c ensures b == Tip(c) || b.Timestamp() < Tip(c).Timestamp() {
      var i :| 0 <= i < |c| && c[i] == b;
    }
    assert Tip(c).Timestamp() > 0 by { assert c[0] == genesis; }
    LatestOfIs(Scan(MapOf(c)), Tip(c));
  }

  // ---- the map determines the chain ----

  /** A store determines the time-ordered chain it holds. */
  lemma {:induction false} ChainUnique(c: seq<Block>, d: seq<Block>)
    requires Increasing(c) && DistinctHashes(c) && Increasing(d) && DistinctHashes(d)
    requires MapOf(c) == MapOf(d)
    ensures c == d
  {
    SameTips(c, d);
    if |c| > 0 {
      DropTip(c);
      DropTip(d);
      ChainUnique(c[..|c| - 1], d[..|d| - 1]);
      assert c == c[..|c| - 1] + [Tip(c)];
      assert d == d[..|d| - 1] + [Tip(d)];
    }
  }

  lemma SameTips(c: seq<Block>, d: seq<Block>)
    requires Increasing(c) && DistinctHashes(c) && Increasing(d) && DistinctHashes(d)
    requires MapOf(c) == MapOf(d)
    ensures |c| == 0 <==> |d| == 0
    ensures |c| > 0 ==> Tip(c) == Tip(d)
  {
    if |d| > 0 {
      var j := IndexIn(d, c, |d| - 1);
    }
    if |c| > 0 {
      var i := IndexIn(c, d, |c| - 1);
    }
  }

  lemma IndexIn(c: seq<Block>, d: seq<Block>, i: nat) returns (j: nat)
    requires DistinctHashes(c) && DistinctHashes(d) && MapOf(c) == MapOf(d)
    requires i < |c|
    ensures j < |d| && d[j] == c[i]
  {
    MapOfMembers(c);
    MapOfMembers(d);
    assert c[i].Hash() in MapOf(d);
    j :| 0 <= j < |d| && d[j].Hash() == c[i].Hash();
  }

  lemma TipIsNew(c: seq<Block>)
    requires |c| > 0 && DistinctHashes(c)
    ensures Tip(c).Hash() !in MapOf(c[..|c| - 1])
  {
    var init := c[..|c| - 1];
    MapOfMembers(init);
    assert forall i :: 0 <= i < |init| ==> init[i].Hash() != Tip(c).Hash();
  }

  lemma DropTip(c: seq<Block>)
    requires |c| > 0 && DistinctHashes(c)
    ensures MapOf(c[..|c| - 1]) == MapOf(c) - {Tip(c).Hash()}
  {
    TipIsNew(c);
    Forget(MapOf(c[..|c| - 1]), Tip(c).Hash(), Tip(c));
  }

  lemma Forget<V>(m: map<string, V>, k: string, v: V)
    requires k !in m
    ensures m[k := v] - {k} == m
  {
  }

  /** The one chain that a store stands for. */
  ghost function SequenceOf(genesis: Block, m: map<string, Block>): (c: seq<Block>)
    requires IsChain(genesis, m)
    ensures WellFormed(genesis, c) && m == MapOf(c)
  {
    var c :| WellFormed(genesis, c) && m == MapOf(c);
    c
  }

  lemma SequenceOfIs(genesis: Block, c: seq<Block>)
    requires WellFormed(genesis, c)
    ensures IsChain(genesis, MapOf(c)) && SequenceOf(genesis, MapOf(c)) == c
  {
    assert IsChain(genesis, MapOf(c));
    ChainUnique(c, SequenceOf(genesis, MapOf(c)));
  }

  // ---- key order against chain order ----

  ghost predicate Descending(c: seq<Block>) {
    forall i, j :: 0 <= i < j < |c| ==> Less(c[j].Hash(), c[i].Hash())
  }

  /** A scan is the chain read backwards exactly when the hashes fall along the chain. */
  lemma ScanIsReversedIff(c: seq<Block>)
    requires DistinctHashes(c)
    ensures Scan(MapOf(c)) == Reversed(c) <==> Descending(c)
  {
    if Descending(c) { DescendingScan(c); }
    if Scan(MapOf(c)) == Reversed(c) { ReversedScanDescends(c); }
  }

  function HashesOf(c: seq<Block>): (ks: seq<string>)
    ensures |ks| == |c|
    ensures forall i :: 0 <= i < |c| ==> ks[i] == c[i].Hash()
  {
    seq(|c|, i requires 0 <= i < |c| => c[i].Hash())
  }

  lemma DescendingScan(c: seq<Block>)
    requires DistinctHashes(c) && Descending(c)
    ensures Scan(MapOf(c)) == Reversed(c)
  {
    var m, ks := MapOf(c), HashesOf(Reversed(c));
    MapOfMembers(c);
    assert forall i :: 0 <= i < |c| ==> ks[i] == c[|c| - 1 - i].Hash();
    forall k | k in m ensures k in ks {
      var i :| 0 <= i < |c| && c[i].Hash() == k;
      assert ks[|c| - 1 - i] == k;
    }
    ScanIsAscending(m, ks);
    assert ValuesAt(m, ks) == Reversed(c);
  }

  lemma ReversedScanDescends(c: seq<Block>)
    requires Scan(MapOf(c)) == Reversed(c)
    ensures Descending(c)
  {
    var sorted := Sorted(MapOf(c).Keys);
    SortedKeys(MapOf(c).Keys);
    MapOfHashes(c);
    forall i | 0 <= i < |c| ensures sorted[|c| - 1 - i] == c[i].Hash() {
      assert sorted[|c| - 1 - i] in MapOf(c);
      assert Scan(MapOf(c))[|c| - 1 - i] == c[i];
    }
  }

  lemma ScanHasNoRepeats(c: seq<Block>)
    ensures NoRepeats(Scan(MapOf(c)))
  {
    var m := MapOf(c);
    var sorted := Sorted(m.Keys);
    SortedKeys(m.Keys);
    MapOfHashes(c);
    assert forall i :: 0 <= i < |sorted| ==> sorted[i] in m && Scan(m)[i].Hash() == sorted[i];
    forall i, j | 0 <= i < j < |sorted| ensures sorted[i] != sorted[j] { LessAsymmetric(sorted[i], sorted[j]); }
  }

  lemma ChainHasNoRepeats(c: seq<Block>)
    requires DistinctHashes(c)
    ensures NoRepeats(c)
  {
    forall i, j | 0 <= i < j < |c| ensures c[i] != c[j] { assert c[i].Hash() != c[j].Hash(); }
  }

  /** In any key order, a scan is a rearrangement of the chain. */
  lemma ScanIsPermutation(c: seq<Block>)
    requires DistinctHashes(c)
    ensures multiset(Scan(MapOf(c))) == multiset(c)
  {
    ScanHasNoRepeats(c);
    ChainHasNoRepeats(c);
    ScanOfChain(c);
    SameMembers(Scan(MapOf(c)), c);
  }

  lemma SameMembers<T(!new)>(s: seq<T>, t: seq<T>)
    requires NoRepeats(s) && NoRepeats(t)
    requires forall x :: x in s <==> x in t
    ensures multiset(s) == multiset(t)
  {
    OnceEach(s);
    OnceEach(t);
  }

  lemma {:induction false} OnceEach<T>(s: seq<T>)
    requires NoRepeats(s)
    ensures forall x :: multiset(s)[x] == if x in s then 1 else 0
  {
    if |s| > 0 {
      OnceEach(s[..|s| - 1]);
      assert s == s[..|s| - 1] + [s[|s| - 1]];
    }
  }
}

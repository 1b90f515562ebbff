/** A store that holds a chain, and then more blocks: when it holds a chain again, and which. */
module Growth {
  import opened Records
  import opened Database
  import opened Chain

  /** The block follows the tip, or a block among the new ones. */
  predicate HasParent(b: Block, tip: Block, added: map<string, Block>) {
    var p := b.header.previousHash;
    Follows(b, tip) || (p in added && Follows(b, added[p]))
  }

  /** Each new block follows the tip or another new block, and no two claim the same predecessor. */
  predicate Linked(tip: Block, added: map<string, Block>) {
    && (forall h :: h in added ==> HasParent(added[h], tip, added))
    && (forall h, k :: h in added && k in added && h != k ==>
          added[h].header.previousHash != added[k].header.previousHash)
  }

  // ---- a chain within a chain ----

  lemma {:induction false} SameAt(genesis: Block, c: seq<Block>, f: seq<Block>, i: nat)
    requires WellFormed(genesis, c) && WellFormed(genesis, f) && Keeps(MapOf(c), MapOf(f))
    requires i < |c|
    ensures i < |f| && f[i] == c[i]
  {
    if i > 0 {
      SameAt(genesis, c, f, i - 1);
      var j := HeightIn(c, f, i);
      assert FollowsAt(c, i);
      assert c[0] == f[0] && c[0].Hash() != c[i].Hash();
      assert FollowsAt(f, j);
      assert f[j - 1].Hash() == f[i - 1].Hash();
    }
  }

  lemma HeightIn(c: seq<Block>, f: seq<Block>, i: nat) returns (j: nat)
    requires DistinctHashes(c) && DistinctHashes(f) && Keeps(MapOf(c), MapOf(f)) && i < |c|
    ensures j < |f| && f[j] == c[i]
  {
    MapOfMembers(c);
    MapOfMembers(f);
    assert c[i].Hash() in MapOf(f);
    j :| 0 <= j < |f| && f[j].Hash() == c[i].Hash();
  }

  /** A chain whose store holds all of another chain's blocks extends that chain. */
  lemma SubchainIsPrefix(genesis: Block, c: seq<Block>, f: seq<Block>)
    requires WellFormed(genesis, c) && WellFormed(genesis, f) && Keeps(MapOf(c), MapOf(f))
    ensures c <= f
  {
    forall i | 0 <= i < |c| ensures i < |f| && f[i] == c[i] { SameAt(genesis, c, f, i); }
  }

  lemma AboveHasParent(genesis: Block, c: seq<Block>, f: seq<Block>, h: string)
    requires WellFormed(genesis, c) && WellFormed(genesis, f) && c <= f
    requires h in MapOf(f) && h !in MapOf(c)
    ensures HasParent(MapOf(f)[h], Tip(c), MapOf(f) - MapOf(c).Keys)
  {
    var j := HeightAbove(c, f, h);
    assert FollowsAt(f, j);
    if j > |c| { AboveIsNew(c, f, j - 1); }
  }

  lemma ChainIsLinked(genesis: Block, c: seq<Block>, f: seq<Block>)
    requires WellFormed(genesis, c) && WellFormed(genesis, f) && c <= f
    ensures Linked(Tip(c), MapOf(f) - MapOf(c).Keys)
  {
    var added := MapOf(f) - MapOf(c).Keys;
    forall h | h in added ensures HasParent(added[h], Tip(c), added) { AboveHasParent(genesis, c, f, h); }
    forall h, k | h in added && k in added && added[h].header.previousHash == added[k].header.previousHash
      ensures h == k
    {
      var i := HeightAbove(c, f, h);
      var j := HeightAbove(c, f, k);
      assert FollowsAt(f, i) && FollowsAt(f, j);
      assert f[i - 1].Hash() == f[j - 1].Hash();
    }
  }

  lemma HeightAbove(c: seq<Block>, f: seq<Block>, h: string) returns (j: nat)
    requires DistinctHashes(c) && DistinctHashes(f) && c <= f
    requires h in MapOf(f) && h !in MapOf(c)
    ensures |c| <= j < |f| && f[j] == MapOf(f)[h] && f[j].Hash() == h
  {
    MapOfMembers(c);
    MapOfMembers(f);
    assert forall i :: 0 <= i < |c| ==> c[i] == f[i];
    j :| 0 <= j < |f| && f[j].Hash() == h;
  }

  lemma AboveIsNew(c: seq<Block>, f: seq<Block>, j: nat)
    requires DistinctHashes(c) && DistinctHashes(f) && c <= f && |c| <= j < |f|
    ensures f[j].Hash() in MapOf(f) && MapOf(f)[f[j].Hash()] == f[j] && f[j].Hash() !in MapOf(c)
  {
    MapOfMembers(c);
    MapOfMembers(f);
    assert forall i :: 0 <= i < |c| ==> c[i] == f[i];
  }

  // ---- attaching new blocks, the earliest first ----

  lemma {:induction false} Earliest(added: map<string, Block>) returns (h: string)
    requires added != map[]
    ensures h in added && forall k :: k in added ==> added[h].Timestamp() <= added[k].Timestamp()
    decreases |added|
  {
    h :| h in added;
    var rest := added - {h};
    assert rest.Keys == added.Keys - {h};
    assert forall k :: k in added ==> k == h || k in rest;
    if rest != map[] {
      var k := Earliest(rest);
      assert k in rest && rest[k] == added[k];
      if added[k].Timestamp() < added[h].Timestamp() {
        assert forall j :: j in rest ==> rest[j] == added[j];
        h := k;
      }
    }
  }

  /** The earliest new block follows the tip, and the others are linked to it. */
  lemma AttachEarliest(tip: Block, added: map<string, Block>, h: string)
    requires KeyedByHash(added) && Linked(tip, added)
    requires h in added && forall k :: k in added ==> added[h].Timestamp() <= added[k].Timestamp()
    ensures Follows(added[h], tip)
    ensures Linked(added[h], added - {h})
  {
    assert HasParent(added[h], tip, added);
    var rest := added - {h};
    forall k | k in rest ensures HasParent(rest[k], added[h], rest) {
      assert HasParent(added[k], tip, added);
    }
  }

  lemma {:induction false} LinkedIsChain(genesis: Block, c: seq<Block>, m: map<string, Block>)
    requires WellFormed(genesis, c) && Keeps(MapOf(c), m) && KeyedByHash(m)
    requires Linked(Tip(c), m - MapOf(c).Keys)
    ensures IsChain(genesis, m)
    decreases m.Keys - MapOf(c).Keys
  {
    var added := m - MapOf(c).Keys;
    if added == map[] {
      NothingAdded(MapOf(c), m);
    } else {
      var h := Earliest(added);
      AttachEarliest(Tip(c), added, h);
      ExtendWellFormed(genesis, c, added[h]);
      MapOfAppend(c, added[h]);
      assert m - MapOf(c + [added[h]]).Keys == added - {h};
      LinkedIsChain(genesis, c + [added[h]], m);
    }
  }

  lemma NothingAdded(before: map<string, Block>, after: map<string, Block>)
    requires Keeps(before, after) && after - before.Keys == map[]
    ensures after == before
  {
    assert forall k :: k in after && k !in before ==> k in after - before.Keys;
  }

  /**
   * Whatever blocks were added to the store of a chain, it holds a chain exactly when they are linked,
   * and then one that extends the chain before.
   */
  lemma GrownIsChainIff(genesis: Block, c: seq<Block>, m: map<string, Block>)
    requires WellFormed(genesis, c) && Keeps(MapOf(c), m) && KeyedByHash(m)
    ensures IsChain(genesis, m) <==> Linked(Tip(c), m - MapOf(c).Keys)
    ensures IsChain(genesis, m) ==> c <= SequenceOf(genesis, m)
  {
    if IsChain(genesis, m) {
      SubchainIsPrefix(genesis, c, SequenceOf(genesis, m));
      ChainIsLinked(genesis, c, SequenceOf(genesis, m));
    }
    if Linked(Tip(c), m - MapOf(c).Keys) { LinkedIsChain(genesis, c, m); }
  }
}

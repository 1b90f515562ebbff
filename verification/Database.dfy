/** The LevelDB wrapper that every store of a node is built on. */
module Database {
  import opened Keys
  import opened Records

  /** `put` refuses a tag that is already there. */
  function PutNew<V>(m: map<string, V>, tag: string, value: V): map<string, V> {
    if tag in m then m else m[tag := value]
  }

  /** `data`: the values of a snapshot, in the order of their keys. */
  function Scan<V>(m: map<string, V>): seq<V> {
    SortedKeys(m.Keys);
    ValuesAt(m, Sorted(m.Keys))
  }

  /** Every entry of `before` is still there, unchanged. */
  ghost predicate Keeps<V>(before: map<string, V>, after: map<string, V>) {
    forall k :: k in before ==> k in after && after[k] == before[k]
  }

  function ValuesAt<V>(m: map<string, V>, ks: seq<string>): (values: seq<V>)
    requires forall k :: k in ks ==> k in m
    ensures |values| == |ks|
    ensures forall i :: 0 <= i < |ks| ==> values[i] == m[ks[i]]
  {
    seq(|ks|, i requires 0 <= i < |ks| => m[ks[i]])
  }

  /** The scan is the one enumeration of the store whose keys ascend. */
  lemma ScanIsAscending<V>(m: map<string, V>, ks: seq<string>)
    requires Ascending(ks)
    requires forall k :: k in ks <==> k in m
    ensures Scan(m) == ValuesAt(m, ks)
  {
    SortedKeys(m.Keys);
    AscendingUnique(Sorted(m.Keys), ks);
  }

  lemma ScanMembers<V(!new)>(m: map<string, V>)
    ensures forall k :: k in m ==> m[k] in Scan(m)
    ensures forall v :: v in Scan(m) ==> exists k :: k in m && m[k] == v
  {
    var ks := Sorted(m.Keys);
    SortedKeys(m.Keys);
    forall k | k in m ensures m[k] in Scan(m) {
      assert k in ks;
      var i :| 0 <= i < |ks| && ks[i] == k;
      assert Scan(m)[i] == m[k];
    }
    forall v | v in Scan(m) ensures exists k :: k in m && m[k] == v {
      var i :| 0 <= i < |ks| && Scan(m)[i] == v;
      assert ks[i] in m;
    }
  }

  function Where<V>(m: map<string, V>, p: V -> bool): map<string, V> {
    map k | k in m && p(m[k]) :: m[k]
  }

  /** Filtering a scan is scanning the part of the store that passes the filter. */
  lemma FilterScan<V>(m: map<string, V>, p: V -> bool)
    ensures Filter(Scan(m), p) == Scan(Where(m, p))
  {
    var part := Where(m, p);
    var q := k => k in m && p(m[k]);
    var kept := Filter(Sorted(m.Keys), q);
    SortedKeys(m.Keys);
    FilterMembers(Sorted(m.Keys), q);
    FilterAscending(Sorted(m.Keys), q);
    FilterValues(m, Sorted(m.Keys), p, q);
    ScanIsAscending(part, kept);
    assert ValuesAt(part, kept) == ValuesAt(m, kept);
  }

  lemma {:induction false} FilterAscending(ks: seq<string>, q: string -> bool)
    requires Ascending(ks)
    ensures Ascending(Filter(ks, q))
  {
    if |ks| > 0 {
      var init, last := ks[..|ks| - 1], ks[|ks| - 1];
      FilterAscending(init, q);
      FilterMembers(init, q);
      var kept := Filter(init, q);
      assert forall i :: 0 <= i < |kept| ==> kept[i] in init;
    }
  }

  lemma {:induction false} FilterValues<V>(m: map<string, V>, ks: seq<string>, p: V -> bool, q: string -> bool)
    requires forall k :: k in ks ==> k in m
    requires forall k :: k in ks ==> (q(k) <==> p(m[k]))
    ensures forall k :: k in Filter(ks, q) ==> k in m
    ensures Filter(ValuesAt(m, ks), p) == ValuesAt(m, Filter(ks, q))
  {
    FilterMembers(ks, q);
    if |ks| > 0 {
      var init, last := ks[..|ks| - 1], ks[|ks| - 1];
      assert ks == init + [last];
      FilterValues(m, init, p, q);
      FilterMembers(init, q);
      assert ValuesAt(m, ks) == ValuesAt(m, init) + [m[last]];
      assert ValuesAt(m, ks)[..|ks| - 1] == ValuesAt(m, init);
      assert ValuesAt(m, Filter(init, q) + [last]) == ValuesAt(m, Filter(init, q)) + [m[last]];
    }
  }

  class Store<V> {
    var db: map<string, V>

    constructor ()
      ensures db == map[]
    {
      db := map[];
    }

    function Get(tag: string): (r: Option<V>)
      reads this
    {
      if tag in db then Some(db[tag]) else None
    }

    predicate Contains(tag: string)
      reads this
    {
      Get(tag).Some?
    }

    function Data(): seq<V>
      reads this
    {
      Scan(db)
    }

    method Put(tag: string, value: V) returns (stored: bool)
      modifies this
      ensures stored <==> tag !in old(db)
      ensures db == PutNew(old(db), tag, value)
    {
      if !Contains(tag) {
        db := db[tag := value];
        return true;
      }
      return false;
    }

    method Remove(tag: string) returns (removed: bool)
      modifies this
      ensures removed <==> tag in old(db)
      ensures db == old(db) - {tag}
    {
      if Contains(tag) {
        db := db - {tag};
        return true;
      }
      return false;
    }

    method Size() returns (counter: nat)
      ensures counter == |db|
    {
      counter := 0;
      SortedKeys(db.Keys);
      assert |db.Keys| == |db|;
      var values := Data();
      for i := 0 to |values|
        invariant counter == i
      {
        counter := counter + 1;
      }
    }
  }
}

/** Database keys: strings in byte order, and the sorted order in which LevelDB iterates. */
module Keys {

  /** `std::string::operator<`, which is also LevelDB's default comparator. */
  predicate Less(a: string, b: string) {
    if |b| == 0 then false
    else if |a| == 0 then true
    else if a[0] != b[0] then a[0] < b[0]
    else Less(a[1..], b[1..])
  }

  predicate AtMost(a: string, b: string) {
    a == b || Less(a, b)
  }

  lemma {:induction false} LessIrreflexive(a: string)
    ensures !Less(a, a)
  {
    if |a| > 0 { LessIrreflexive(a[1..]); }
  }

  lemma {:induction false} LessTransitive(a: string, b: string, c: string)
    requires Less(a, b) && Less(b, c)
    ensures Less(a, c)
  {
    if |a| > 0 && a[0] == b[0] && b[0] == c[0] { LessTransitive(a[1..], b[1..], c[1..]); }
  }

  lemma {:induction false} LessTotal(a: string, b: string)
    ensures a == b || Less(a, b) || Less(b, a)
  {
    if |a| > 0 && |b| > 0 && a[0] == b[0] {
      LessTotal(a[1..], b[1..]);
      assert a == [a[0]] + a[1..] && b == [b[0]] + b[1..];
    }
  }

  lemma LessAsymmetric(a: string, b: string)
    requires Less(a, b)
    ensures !Less(b, a) && a != b
  {
    LessIrreflexive(a);
    if Less(b, a) { LessTransitive(a, b, a); }
  }

  ghost predicate Ascending(ks: seq<string>) {
    forall i, j :: 0 <= i < j < |ks| ==> Less(ks[i], ks[j])
  }

  predicate IsLeast(k: string, s: set<string>) {
    k in s && forall x :: x in s ==> AtMost(k, x)
  }

  lemma {:induction false} LeastExists(s: set<string>)
    requires s != {}
    ensures exists k :: IsLeast(k, s)
  {
    var x :| x in s;
    if s == {x} {
      assert IsLeast(x, s);
    } else {
      var rest := s - {x};
      assert s == rest + {x};
      LeastExists(rest);
      var k :| IsLeast(k, rest);
      LessTotal(x, k);
      if Less(x, k) {
        forall y | y in s ensures AtMost(x, y) {
          if y != x && y != k { LessTransitive(x, k, y); }
        }
        assert IsLeast(x, s);
      } else {
        assert IsLeast(k, s);
      }
    }
  }

  lemma LeastUnique(j: string, k: string, s: set<string>)
    requires IsLeast(j, s) && IsLeast(k, s)
    ensures j == k
  {
    if j != k { LessAsymmetric(j, k); }
  }

  function Least(s: set<string>): (k: string)
    requires s != {}
    ensures IsLeast(k, s)
  {
    LeastExists(s);
    assert forall j, k | IsLeast(j, s) && IsLeast(k, s) :: j == k by {
      forall j, k | IsLeast(j, s) && IsLeast(k, s) ensures j == k { LeastUnique(j, k, s); }
    }
    var k :| k in s && IsLeast(k, s);
    k
  }

  /** The keys of a store in iteration order: `SeekToFirst`, then `Next` until the end. */
  function Sorted(s: set<string>): seq<string> {
    if s == {} then []
    else
      var k := Least(s);
      [k] + Sorted(s - {k})
  }

  lemma {:induction false} SortedKeys(s: set<string>)
    ensures Ascending(Sorted(s))
    ensures forall k :: k in Sorted(s) <==> k in s
    ensures |Sorted(s)| == |s|
  {
    if s != {} {
      var k := Least(s);
      SortedKeys(s - {k});
      PutFirst(k, Sorted(s - {k}));
    }
  }

  lemma PutFirst(k: string, rest: seq<string>)
    requires Ascending(rest) && forall x :: x in rest ==> Less(k, x)
    ensures Ascending([k] + rest)
  {
    forall i, j | 0 <= i < j < |[k] + rest| ensures Less(([k] + rest)[i], ([k] + rest)[j]) {
      assert ([k] + rest)[j] == rest[j - 1];
    }
  }

  /** There is only one ascending enumeration of a set of keys. */
  lemma {:induction false} AscendingUnique(a: seq<string>, b: seq<string>)
    requires Ascending(a) && Ascending(b)
    requires forall k :: k in a <==> k in b
    ensures a == b
  {
    assert |a| > 0 ==> a[0] in b;
    assert |b| > 0 ==> b[0] in a;
    if |a| > 0 {
      FirstsAgree(a, b);
      forall k ensures k in a[1..] <==> k in b[1..] {
        InTail(a, k);
        InTail(b, k);
      }
      AscendingUnique(a[1..], b[1..]);
      assert a == [a[0]] + a[1..] && b == [b[0]] + b[1..];
    }
  }

  lemma FirstsAgree(a: seq<string>, b: seq<string>)
    requires |a| > 0 && |b| > 0 && Ascending(a) && Ascending(b)
    requires forall k :: k in a <==> k in b
    ensures a[0] == b[0]
  {
    assert a[0] in b && b[0] in a;
    var i :| 0 <= i < |b| && b[i] == a[0];
    var j :| 0 <= j < |a| && a[j] == b[0];
    if a[0] != b[0] { LessAsymmetric(a[0], b[0]); }
  }

  lemma InTail(a: seq<string>, k: string)
    requires |a| > 0 && Ascending(a)
    ensures k in a[1..] <==> k in a && k != a[0]
  {
    LessIrreflexive(a[0]);
    if k in a && k != a[0] {
      var i :| 0 <= i < |a| && a[i] == k;
      assert a[1..][i - 1] == k;
    }
  }
}

/** Sorting by a three-part key, compared part by part. */
module Ordering {

  datatype Key = Key(a: int, b: int, c: nat)

  predicate Less(x: Key, y: Key) {
    x.a < y.a || (x.a == y.a && (x.b < y.b || (x.b == y.b && x.c < y.c)))
  }

  predicate IsLeast(s: set<Key>, k: Key) {
    k in s && forall j :: j in s && j != k ==> Less(k, j)
  }

  lemma LeastExists(s: set<Key>)
    requires s != {}
    ensures exists k :: IsLeast(s, k)
  {
    var k :| k in s;
    var rest := s - {k};
    if rest == {} {
      assert s == {k};
      assert IsLeast(s, k);
    } else {
      LeastExists(rest);
      var m :| IsLeast(rest, m);
      assert forall j :: j in s ==> j == k || j in rest;
      assert IsLeast(s, if Less(k, m) then k else m);
    }
  }

  function Least(s: set<Key>): (k: Key)
    requires s != {}
    ensures k in s
  {
    LeastExists(s);
    var k :| IsLeast(s, k);
    k
  }

  ghost predicate Ascending(q: seq<Key>) {
    forall i, j :: 0 <= i < j < |q| ==> Less(q[i], q[j])
  }

  /** The elements of `s` in ascending order. */
  function Sorted(s: set<Key>): seq<Key> {
    if s == {} then [] else
    var k := Least(s);
    [k] + Sorted(s - {k})
  }

  lemma {:induction false} SortedIsAscending(s: set<Key>)
    ensures Ascending(Sorted(s))
    ensures forall k :: k in Sorted(s) <==> k in s
    ensures |Sorted(s)| == |s|
  {
    if s != {} {
      SortedIsAscending(s - {Least(s)});
    }
  }

  /** Only one ascending sequence holds a given set of keys. */
  lemma {:induction false} SortedIsUnique(s: set<Key>, q: seq<Key>)
    requires Ascending(q)
    requires forall k :: k in q <==> k in s
    ensures q == Sorted(s)
  {
    assert q != [] ==> q[0] in s;
    if s != {} {
      var k :| k in s;
      assert q != [];
      assert q[0] in s;
      assert IsLeast(s, q[0]);
      var m := Least(s);
      assert m == q[0];
      var rest := q[1..];
      forall j ensures j in rest <==> j in s - {m} {
        if j in s - {m} {
          var i :| 0 <= i < |q| && q[i] == j;
          assert rest[i - 1] == j;
        }
      }
      SortedIsUnique(s - {m}, rest);
      assert q == [m] + rest;
    }
  }

  // ---- Sorting a sequence by key ----

  /** Stable insertion sort. */
  function InsertBy<V>(q: seq<V>, v: V, key: V -> Key): seq<V> {
    if q == [] then [v] else if Less(key(v), key(q[0])) then [v] + q else [q[0]] + InsertBy(q[1..], v, key)
  }

  function SortBy<V>(q: seq<V>, key: V -> Key): seq<V> {
    if q == [] then [] else InsertBy(SortBy(q[..|q| - 1], key), q[|q| - 1], key)
  }

  ghost predicate NeverFalls<V>(q: seq<V>, key: V -> Key) {
    forall i, j :: 0 <= i < j < |q| ==> !Less(key(q[j]), key(q[i]))
  }

  ghost predicate Rises<V>(q: seq<V>, key: V -> Key) {
    forall i, j :: 0 <= i < j < |q| ==> Less(key(q[i]), key(q[j]))
  }

  lemma {:induction false} InsertLast<V>(q: seq<V>, v: V, key: V -> Key)
    requires forall i :: 0 <= i < |q| ==> !Less(key(v), key(q[i]))
    ensures InsertBy(q, v, key) == q + [v]
  {
    if q != [] {
      InsertLast(q[1..], v, key);
    }
  }

  /** Sorting what is in order already changes nothing. */
  lemma {:induction false} SortInOrder<V>(q: seq<V>, key: V -> Key)
    requires NeverFalls(q, key)
    ensures SortBy(q, key) == q
  {
    if q != [] {
      SortInOrder(q[..|q| - 1], key);
      InsertLast(q[..|q| - 1], q[|q| - 1], key);
    }
  }

  lemma {:induction false} InsertKeeps<V>(q: seq<V>, v: V, key: V -> Key)
    requires NeverFalls(q, key)
    ensures NeverFalls(InsertBy(q, v, key), key)
    ensures multiset(InsertBy(q, v, key)) == multiset(q) + multiset{v}
  {
    if q == [] {
      assert InsertBy(q, v, key) == [v];
    } else if Less(key(v), key(q[0])) {
      assert InsertBy(q, v, key) == [v] + q;
    } else {
      InsertKeeps(q[1..], v, key);
      var rest := InsertBy(q[1..], v, key);
      assert q == [q[0]] + q[1..];
      NoneBelow(q, rest, v, key);
    }
  }

  lemma NoneBelow<V>(q: seq<V>, rest: seq<V>, v: V, key: V -> Key)
    requires NeverFalls(q, key) && q != [] && !Less(key(v), key(q[0])) && NeverFalls(rest, key)
    requires multiset(rest) == multiset(q[1..]) + multiset{v}
    ensures NeverFalls([q[0]] + rest, key)
  {
    hide Less;
    forall i | 0 <= i < |rest|
      ensures !Less(key(rest[i]), key(q[0]))
    {
      assert rest[i] in multiset(rest);
      assert rest[i] == v || rest[i] in q[1..];
    }
  }

  lemma {:induction false} SortKeeps<V>(q: seq<V>, key: V -> Key)
    ensures NeverFalls(SortBy(q, key), key)
    ensures multiset(SortBy(q, key)) == multiset(q)
    ensures |SortBy(q, key)| == |q|
  {
    if q != [] {
      SortKeeps(q[..|q| - 1], key);
      InsertKeeps(SortBy(q[..|q| - 1], key), q[|q| - 1], key);
      assert q == q[..|q| - 1] + [q[|q| - 1]];
      assert |multiset(SortBy(q, key))| == |multiset(q)|;
    }
  }

  /** Sorting any arrangement of rising elements restores it. */
  lemma SortRestores<V>(q: seq<V>, rising: seq<V>, key: V -> Key)
    requires Rises(rising, key) && multiset(q) == multiset(rising)
    ensures SortBy(q, key) == rising
  {
    SortKeeps(q, key);
    OneOrder(SortBy(q, key), rising, key);
  }

  lemma FirstAgrees<V>(a: seq<V>, b: seq<V>, key: V -> Key)
    requires NeverFalls(a, key) && Rises(b, key) && a != [] && multiset(a) == multiset(b)
    ensures b != [] && a[0] == b[0]
  {
    assert a[0] in multiset(b);
    var j :| 0 <= j < |b| && b[j] == a[0];
    assert b[0] in multiset(a);
    var i :| 0 <= i < |a| && a[i] == b[0];
  }

  lemma DropFirst<V>(a: seq<V>)
    requires a != []
    ensures multiset(a[1..]) == multiset(a) - multiset{a[0]}
  {
    assert a == [a[0]] + a[1..];
  }

  lemma {:induction false} OneOrder<V>(a: seq<V>, b: seq<V>, key: V -> Key)
    requires NeverFalls(a, key) && Rises(b, key) && multiset(a) == multiset(b)
    ensures a == b
    decreases |a|
  {
    hide Less;
    if a == [] {
      assert |multiset(b)| == |multiset(a)|;
    } else {
      FirstAgrees(a, b, key);
      DropFirst(a);
      DropFirst(b);
      OneOrder(a[1..], b[1..], key);
      assert a == [a[0]] + a[1..] && b == [b[0]] + b[1..];
    }
  }
}

/** Ordered key-value tables over byte strings: numbers as big-endian bytes, insertion in key
    order, and prefix scans with a cursor. */
module ByteTable {
  import opened Paqus

  type Byte = n: nat | n < 256
  type Bytes = seq<Byte>

  function Pow256(width: nat): Positive {
    if width == 0 then 1 else 256 * Pow256(width - 1)
  }

  /** The last `width` base-256 digits of `n`, most significant first. */
  function BigEndian(n: nat, width: nat): (bytes: Bytes)
    ensures |bytes| == width
  {
    if width == 0 then [] else BigEndian(n / 256, width - 1) + [n % 256]
  }

  /** Byte strings compare byte by byte, a proper prefix first. */
  predicate Less(a: Bytes, b: Bytes) {
    b != [] && (a == [] || a[0] < b[0] || (a[0] == b[0] && Less(a[1..], b[1..])))
  }

  lemma {:induction false} LessExtends(a: Bytes, b: Bytes, x: Bytes, y: Bytes)
    requires |a| == |b| && Less(a, b)
    ensures Less(a + x, b + y)
    decreases |a|
  {
    assert (a + x)[1..] == a[1..] + x && (b + y)[1..] == b[1..] + y;
    if a[0] == b[0] {
      LessExtends(a[1..], b[1..], x, y);
    }
  }

  lemma {:induction false} LessShared(p: Bytes, x: Bytes, y: Bytes)
    ensures Less(p + x, p + y) <==> Less(x, y)
  {
    if p == [] {
      assert p + x == x && p + y == y;
    } else {
      assert (p + x)[1..] == p[1..] + x && (p + y)[1..] == p[1..] + y;
      LessShared(p[1..], x, y);
    }
  }

  lemma {:induction false} LessIsTransitive(a: Bytes, b: Bytes, c: Bytes)
    requires Less(a, b) && Less(b, c)
    ensures Less(a, c)
  {
    if a != [] && a[0] == b[0] == c[0] {
      LessIsTransitive(a[1..], b[1..], c[1..]);
    }
  }

  lemma {:induction false} LessIsTotal(a: Bytes, b: Bytes)
    ensures Less(a, b) || a == b || Less(b, a)
    ensures !(Less(a, b) && Less(b, a)) && !Less(a, a)
  {
    if a != [] && b != [] {
      LessIsTotal(a[1..], b[1..]);
      LessIsTotal(a[1..], a[1..]);
      assert a[0] == b[0] && a[1..] == b[1..] ==> a == [a[0]] + a[1..] == [b[0]] + b[1..] == b;
    } else if a != [] {
      LessIsTotal(a[1..], a[1..]);
    }
  }

  /** Byte order of big-endian numbers is numeric order. */
  lemma {:induction false} BigEndianOrdered(a: nat, b: nat, width: nat)
    requires a < b < Pow256(width)
    ensures Less(BigEndian(a, width), BigEndian(b, width))
  {
    if a / 256 < b / 256 {
      BigEndianOrdered(a / 256, b / 256, width - 1);
      LessExtends(BigEndian(a / 256, width - 1), BigEndian(b / 256, width - 1), [a % 256], [b % 256]);
    } else {
      assert a / 256 == b / 256 && a % 256 < b % 256;
      LessShared(BigEndian(a / 256, width - 1), [a % 256], [b % 256]);
    }
  }

  lemma BigEndianInjective(a: nat, b: nat, width: nat)
    requires a < Pow256(width) && b < Pow256(width) && BigEndian(a, width) == BigEndian(b, width)
    ensures a == b
  {
    LessIsTotal(BigEndian(a, width), BigEndian(b, width));
    if a < b {
      BigEndianOrdered(a, b, width);
    } else if b < a {
      BigEndianOrdered(b, a, width);
    }
  }

  /** Keys with a given prefix are contiguous: past the first key that is neither below the
      prefix nor starts with it, none starts with it. */
  lemma {:induction false} PrefixRangeEnds(prefix: Bytes, key: Bytes, later: Bytes)
    requires !Less(key, prefix) && !(prefix <= key) && Less(key, later)
    ensures !(prefix <= later)
  {
    if later[0] == key[0] == prefix[0] {
      assert prefix <= later ==> prefix[1..] <= later[1..];
      PrefixRangeEnds(prefix[1..], key[1..], later[1..]);
    }
  }

  lemma {:induction false} PrefixIsNotAbove(prefix: Bytes, key: Bytes)
    requires prefix <= key
    ensures !Less(key, prefix)
  {
    if prefix != [] {
      PrefixIsNotAbove(prefix[1..], key[1..]);
    }
  }

  datatype Row<V> = Row(key: Bytes, value: V)

  ghost predicate Ordered<V>(t: seq<Row<V>>) {
    forall i, j :: 0 <= i < j < |t| ==> Less(t[i].key, t[j].key)
  }

  function Put<V>(t: seq<Row<V>>, row: Row<V>): seq<Row<V>> {
    if t == [] || Less(row.key, t[0].key) then [row] + t
    else if row.key == t[0].key then [row] + t[1..]
    else [t[0]] + Put(t[1..], row)
  }

  function Get<V>(t: seq<Row<V>>, key: Bytes): Option<V> {
    if t == [] then None else if t[0].key == key then Some(t[0].value) else Get(t[1..], key)
  }

  function Fill<V>(rows: seq<Row<V>>): seq<Row<V>> {
    if rows == [] then [] else Put(Fill(rows[..|rows| - 1]), rows[|rows| - 1])
  }

  /** The rows whose key starts with `prefix`, in their order. */
  function Within<V>(rows: seq<Row<V>>, prefix: Bytes): seq<Row<V>> {
    if rows == [] then [] else
    Within(rows[..|rows| - 1], prefix) +
    (if prefix <= rows[|rows| - 1].key then [rows[|rows| - 1]] else [])
  }

  function Values<V>(rows: seq<Row<V>>): (values: seq<V>)
    ensures |values| == |rows|
  {
    seq(|rows|, i requires 0 <= i < |rows| => rows[i].value)
  }

  lemma {:induction false} PutRows<V>(t: seq<Row<V>>, row: Row<V>)
    ensures forall r :: r in Put(t, row) ==> r == row || r in t
  {
    if t != [] && !Less(row.key, t[0].key) && row.key != t[0].key {
      PutRows(t[1..], row);
    }
  }

  lemma {:induction false} PutKeepsOrdered<V>(t: seq<Row<V>>, row: Row<V>)
    requires Ordered(t)
    ensures Ordered(Put(t, row))
  {
    if t == [] {
    } else if Less(row.key, t[0].key) {
      forall i | 0 <= i < |t|
        ensures Less(row.key, t[i].key)
      {
        if i > 0 {
          LessIsTransitive(row.key, t[0].key, t[i].key);
        }
      }
    } else if row.key != t[0].key {
      LessIsTotal(row.key, t[0].key);
      PutKeepsOrdered(t[1..], row);
      PutRows(t[1..], row);
      var rest := Put(t[1..], row);
      forall i | 0 <= i < |rest|
        ensures Less(t[0].key, rest[i].key)
      {
        assert rest[i] in rest;
      }
    }
  }

  lemma {:induction false} FillIsOrdered<V>(rows: seq<Row<V>>)
    ensures Ordered(Fill(rows))
  {
    if rows != [] {
      FillIsOrdered(rows[..|rows| - 1]);
      PutKeepsOrdered(Fill(rows[..|rows| - 1]), rows[|rows| - 1]);
    }
  }

  lemma FillLast<V>(rows: seq<Row<V>>, row: Row<V>)
    ensures Fill(rows + [row]) == Put(Fill(rows), row)
  {
    assert (rows + [row])[..|rows|] == rows;
  }

  lemma {:induction false} GetAfterPut<V>(t: seq<Row<V>>, row: Row<V>, key: Bytes)
    ensures Get(Put(t, row), key) == if key == row.key then Some(row.value) else Get(t, key)
  {
    if t != [] && !Less(row.key, t[0].key) && row.key != t[0].key {
      GetAfterPut(t[1..], row, key);
    }
  }

  lemma {:induction false} WithinJoins<V>(a: seq<Row<V>>, b: seq<Row<V>>, prefix: Bytes)
    ensures Within(a + b, prefix) == Within(a, prefix) + Within(b, prefix)
    decreases |b|
  {
    if b == [] {
      assert a + b == a;
    } else {
      assert (a + b)[..|a + b| - 1] == a + b[..|b| - 1];
      WithinJoins(a, b[..|b| - 1], prefix);
    }
  }

  lemma {:induction false} WithinRows<V>(rows: seq<Row<V>>, prefix: Bytes)
    ensures forall i :: 0 <= i < |Within(rows, prefix)| ==> Within(rows, prefix)[i] in rows
  {
    if rows != [] {
      WithinRows(rows[..|rows| - 1], prefix);
    }
  }

  lemma WithinHead<V>(t: seq<Row<V>>, prefix: Bytes)
    requires t != []
    ensures Within(t, prefix) == if prefix <= t[0].key then [t[0]] + Within(t[1..], prefix) else Within(t[1..], prefix)
  {
    assert t == [t[0]] + t[1..];
    WithinJoins([t[0]], t[1..], prefix);
    assert Within([t[0]][..0], prefix) == [];
  }

  lemma AboveWithin<V>(t: seq<Row<V>>, key: Bytes, prefix: Bytes)
    requires Ordered(t) && t != [] && Less(key, t[0].key)
    ensures Within(t, prefix) == [] || Less(key, Within(t, prefix)[0].key)
  {
    if Within(t, prefix) != [] {
      WithinRows(t, prefix);
      var first := Within(t, prefix)[0];
      assert first in t;
      var i :| 0 <= i < |t| && t[i] == first;
      if i > 0 {
        LessIsTransitive(key, t[0].key, t[i].key);
      }
    }
  }

  /** Rows under a prefix once a row is written under it, or elsewhere. */
  function PutUnder<V>(inside: seq<Row<V>>, row: Row<V>, prefix: Bytes): seq<Row<V>> {
    if prefix <= row.key then Put(inside, row) else inside
  }

  lemma WithinNothing<V>(prefix: Bytes)
    ensures Within<V>([], prefix) == []
  {
  }

  lemma PutFirstWithin<V>(t: seq<Row<V>>, row: Row<V>, prefix: Bytes)
    requires Ordered(t) && (t == [] || Less(row.key, t[0].key))
    ensures Within(Put(t, row), prefix) == PutUnder(Within(t, prefix), row, prefix)
  {
    hide Less, Within, Ordered;
    assert Put(t, row) == [row] + t && ([row] + t)[1..] == t;
    WithinHead([row] + t, prefix);
    if t != [] {
      AboveWithin(t, row.key, prefix);
    } else {
      WithinNothing<V>(prefix);
    }
  }

  lemma PutSameWithin<V>(t: seq<Row<V>>, row: Row<V>, prefix: Bytes)
    requires t != [] && !Less(row.key, t[0].key) && row.key == t[0].key
    ensures Within(Put(t, row), prefix) == PutUnder(Within(t, prefix), row, prefix)
  {
    hide Less, Within;
    var inside := Within(t[1..], prefix);
    assert Put(t, row) == [row] + t[1..] && ([row] + t[1..])[1..] == t[1..];
    WithinHead([row] + t[1..], prefix);
    WithinHead(t, prefix);
    assert ([t[0]] + inside)[1..] == inside;
  }

  lemma PutLaterWithin<V>(t: seq<Row<V>>, row: Row<V>, prefix: Bytes)
    requires t != [] && !Less(row.key, t[0].key) && row.key != t[0].key
    requires Within(Put(t[1..], row), prefix) == PutUnder(Within(t[1..], prefix), row, prefix)
    ensures Within(Put(t, row), prefix) == PutUnder(Within(t, prefix), row, prefix)
  {
    hide Less, Within;
    var inside := Within(t[1..], prefix);
    assert Put(t, row) == [t[0]] + Put(t[1..], row) && ([t[0]] + Put(t[1..], row))[1..] == Put(t[1..], row);
    WithinHead([t[0]] + Put(t[1..], row), prefix);
    WithinHead(t, prefix);
    assert ([t[0]] + inside)[1..] == inside;
  }

  /** Writing a row changes the rows under a prefix only if its key has that prefix. */
  lemma {:induction false} PutWithin<V>(t: seq<Row<V>>, row: Row<V>, prefix: Bytes)
    requires Ordered(t)
    ensures Within(Put(t, row), prefix) == PutUnder(Within(t, prefix), row, prefix)
  {
    hide Less, Within, Put, PutUnder;
    if t == [] || Less(row.key, t[0].key) {
      PutFirstWithin(t, row, prefix);
    } else if row.key == t[0].key {
      PutSameWithin(t, row, prefix);
    } else {
      PutWithin(t[1..], row, prefix);
      PutLaterWithin(t, row, prefix);
    }
  }

  /** Rows under other prefixes never interfere: a scan sees the rows written under its own
      prefix, as if nothing else had been written. */
  lemma {:induction false} FillWithin<V>(rows: seq<Row<V>>, prefix: Bytes)
    ensures Within(Fill(rows), prefix) == Fill(Within(rows, prefix))
  {
    if rows != [] {
      var before, last := rows[..|rows| - 1], rows[|rows| - 1];
      FillWithin(before, prefix);
      FillIsOrdered(before);
      PutWithin(Fill(before), last, prefix);
      var inside := Within(rows, prefix);
      if !(prefix <= last.key) {
        assert inside == Within(before, prefix);
      } else {
        assert inside[..|inside| - 1] == Within(before, prefix) && inside[|inside| - 1] == last;
      }
    }
  }

  lemma {:induction false} PutLast<V>(t: seq<Row<V>>, row: Row<V>)
    requires Ordered(t + [row])
    ensures Put(t, row) == t + [row]
  {
    if t != [] {
      assert (t + [row])[0] == t[0] && (t + [row])[|t|] == row;
      LessIsTotal(t[0].key, row.key);
      LessIsTotal(t[0].key, t[0].key);
      assert t[1..] + [row] == (t + [row])[1..];
      PutLast(t[1..], row);
    }
  }

  lemma {:induction false} PutAgain<V>(t: seq<Row<V>>, row: Row<V>)
    requires Ordered(t) && t != [] && t[|t| - 1] == row
    ensures Put(t, row) == t
  {
    LessIsTotal(row.key, row.key);
    if |t| > 1 {
      LessIsTotal(t[0].key, row.key);
      LessIsTotal(t[0].key, t[0].key);
      PutAgain(t[1..], row);
    }
  }

  /** Walks the whole table in key order: skips keys below the prefix and stops at the first
      key past its range. */
  method Scan<V>(t: seq<Row<V>>, prefix: Bytes) returns (found: seq<V>)
    requires Ordered(t)
    ensures found == Values(Within(t, prefix))
  {
    found := [];
    for i := 0 to |t|
      invariant found == Values(Within(t[..i], prefix))
    {
      assert t[..i + 1][..i] == t[..i];
      if Less(t[i].key, prefix) {
        if prefix <= t[i].key {
          PrefixIsNotAbove(prefix, t[i].key);
          assert false;
        }
        continue;
      }
      if !(prefix <= t[i].key) {
        NothingLater(t, i, prefix);
        return;
      }
      found := found + [t[i].value];
    }
    assert t[..|t|] == t;
  }

  lemma NothingLater<V>(t: seq<Row<V>>, i: nat, prefix: Bytes)
    requires Ordered(t) && i < |t|
    requires !Less(t[i].key, prefix) && !(prefix <= t[i].key)
    ensures Within(t, prefix) == Within(t[..i], prefix)
  {
    assert t == t[..i] + t[i..];
    WithinJoins(t[..i], t[i..], prefix);
    var rest := t[i..];
    forall j | 0 <= j < |rest|
      ensures !(prefix <= rest[j].key)
    {
      assert rest[j] == t[i + j];
      if j > 0 {
        PrefixRangeEnds(prefix, t[i].key, t[i + j].key);
      }
    }
    NoneWithin(rest, prefix);
  }

  lemma {:induction false} NoneWithin<V>(rows: seq<Row<V>>, prefix: Bytes)
    requires forall j :: 0 <= j < |rows| ==> !(prefix <= rows[j].key)
    ensures Within(rows, prefix) == []
  {
    if rows != [] {
      NoneWithin(rows[..|rows| - 1], prefix);
    }
  }
}

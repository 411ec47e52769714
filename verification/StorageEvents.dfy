/** Protocol events: stored once by id, indexed by block, by transaction and by address. */
module StorageEvents {
  import opened Paqus
  import opened ByteTable
  import opened StorageIndex
  import O = Ordering

  datatype EventKind =
    | BatchTransferred(from: Address, to: Address)
    | Withdrawn(signer: Address)
    | Redeemed(signer: Address, recipient: Address)
    | RecoverRedeemed(signer: Address, claimant: Address)
    | GenesisAllocated(recipient: Address)
    | CoinbasePaid(miner: Address)

  datatype Event = Event(
    id: Hash, blockHash: Hash, height: nat, index: nat, tx: Option<Hash>, kind: EventKind, valid: bool)

  /** Two addresses as an ordered set lists them. */
  function Both(a: Address, b: Address): seq<Address> {
    if a == b then [a] else if a < b then [a, b] else [b, a]
  }

  function EventAddresses(kind: EventKind): seq<Address> {
    match kind
    case BatchTransferred(from, to) => Both(from, to)
    case Withdrawn(signer) => [signer]
    case Redeemed(signer, recipient) => Both(signer, recipient)
    case RecoverRedeemed(signer, claimant) => Both(signer, claimant)
    case GenesisAllocated(recipient) => [recipient]
    case CoinbasePaid(miner) => [miner]
  }

  datatype Index = ByBlock | ByTransaction | ByAddress

  /** What an event is filed under. */
  function Targets(ix: Index, e: Event): seq<nat> {
    match ix
    case ByBlock => [e.blockHash]
    case ByTransaction => if e.tx.Some? then [e.tx.value] else []
    case ByAddress => EventAddresses(e.kind)
  }

  function Width(ix: Index): nat {
    if ix.ByAddress? then ADDRESS_SIZE else HASH_SIZE
  }

  function Prefix(ix: Index, target: nat): Bytes {
    BigEndian(target, Width(ix))
  }

  /** The rest of an event's key: its place in the block, after the height for addresses. */
  function Tail(ix: Index, e: Event): Bytes {
    if ix.ByAddress? then HeightKey(e.height) + BigEndian(e.index, 4) else BigEndian(e.index, 4)
  }

  function EventKey(ix: Index, target: nat, e: Event): Bytes {
    Prefix(ix, target) + Tail(ix, e)
  }

  function RowsOf(ix: Index, targets: seq<nat>, e: Event): seq<Row<Hash>> {
    if targets == [] then [] else
    RowsOf(ix, targets[..|targets| - 1], e) + [Row(EventKey(ix, targets[|targets| - 1], e), e.id)]
  }

  function IndexRows(ix: Index, events: seq<Event>): seq<Row<Hash>> {
    if events == [] then [] else
    IndexRows(ix, events[..|events| - 1]) + RowsOf(ix, Targets(ix, events[|events| - 1]), events[|events| - 1])
  }

  function IdRows(events: seq<Event>): seq<Row<Event>> {
    if events == [] then [] else
    IdRows(events[..|events| - 1]) + [Row(HashKey(events[|events| - 1].id), events[|events| - 1])]
  }

  /** The events filed under `target`, in their order. */
  function Selected(ix: Index, events: seq<Event>, target: nat): seq<Event> {
    if events == [] then [] else
    Selected(ix, events[..|events| - 1], target) +
    (if target in Targets(ix, events[|events| - 1]) then [events[|events| - 1]] else [])
  }

  /** Whom an event concerns. */
  ghost predicate Concerns(kind: EventKind, a: Address) {
    || (kind.BatchTransferred? && (kind.from == a || kind.to == a))
    || (kind.Withdrawn? && kind.signer == a)
    || (kind.Redeemed? && (kind.signer == a || kind.recipient == a))
    || (kind.RecoverRedeemed? && (kind.signer == a || kind.claimant == a))
    || (kind.GenesisAllocated? && kind.recipient == a)
    || (kind.CoinbasePaid? && kind.miner == a)
  }

  /** An event is filed under its block, its transaction if it has one, and everyone it concerns. */
  lemma FiledUnder(e: Event, target: nat)
    ensures target in Targets(ByBlock, e) <==> e.blockHash == target
    ensures target in Targets(ByTransaction, e) <==> e.tx == Some(target)
    ensures target in Targets(ByAddress, e) <==> Concerns(e.kind, target)
    ensures forall ix :: NoRepeats(Targets(ix, e))
  {
  }

  /** Selecting by a target gives exactly the events filed under it, in chain order. */
  lemma SelectedMeans(ix: Index, events: seq<Event>, target: nat)
    ensures forall e :: e in Selected(ix, events, target) <==> e in events && target in Targets(ix, e)
    ensures InOrder(events) ==> InOrder(Selected(ix, events, target))
  {
    hide Targets, Selected, InOrder;
    SelectedHolds(ix, events, target);
    if InOrder(events) { SelectedInOrder(ix, events, target); }
  }

  lemma {:induction false} SelectedHolds(ix: Index, events: seq<Event>, target: nat)
    ensures forall e :: e in Selected(ix, events, target) <==> e in events && target in Targets(ix, e)
  {
    hide Targets;
    if events != [] {
      var front, last := events[..|events| - 1], events[|events| - 1];
      SelectedHolds(ix, front, target);
      assert events == front + [last];
    }
  }

  lemma {:induction false} SelectedInOrder(ix: Index, events: seq<Event>, target: nat)
    requires InOrder(events)
    ensures InOrder(Selected(ix, events, target))
  {
    hide Targets, Before;
    if events != [] {
      var front, last := events[..|events| - 1], events[|events| - 1];
      SelectedInOrder(ix, front, target);
      SelectedHolds(ix, front, target);
      var before := Selected(ix, front, target);
      forall i | 0 <= i < |before| ensures Before(before[i], last) {
        assert before[i] in front;
        var k :| 0 <= k < |front| && front[k] == before[i];
        assert events[k] == before[i];
      }
    }
  }

  ghost predicate SizedEvent(e: Event) {
    && e.id < Pow256(HASH_SIZE) && e.height < Pow256(8) && e.index < Pow256(4)
    && (forall i :: 0 <= i < |Targets(ByBlock, e)| ==> Targets(ByBlock, e)[i] < Pow256(HASH_SIZE))
    && (forall i :: 0 <= i < |Targets(ByTransaction, e)| ==> Targets(ByTransaction, e)[i] < Pow256(HASH_SIZE))
    && (forall i :: 0 <= i < |Targets(ByAddress, e)| ==> Targets(ByAddress, e)[i] < Pow256(ADDRESS_SIZE))
  }

  predicate Before(e: Event, f: Event) {
    e.height < f.height || (e.height == f.height && e.index < f.index)
  }

  /** Events as a chain emits them: by height, and by position within a block. */
  ghost predicate InOrder(events: seq<Event>) {
    forall i, j :: 0 <= i < j < |events| ==> Before(events[i], events[j])
  }

  ghost predicate WellFormed(events: seq<Event>) {
    && (forall i :: 0 <= i < |events| ==> SizedEvent(events[i]) && events[i].valid)
    && (forall i, j :: 0 <= i < j < |events| ==> events[i].id != events[j].id)
    && InOrder(events)
  }

  // Loading

  /** Looks the ids up one after the other; a missing or altered event is an error. */
  function Resolve(table: seq<Row<Event>>, ids: seq<Hash>): Result<seq<Event>, Integrity> {
    if ids == [] then Ok([]) else
    match Resolve(table, ids[..|ids| - 1])
    case Err(e) => Err(e)
    case Ok(before) =>
      var id := ids[|ids| - 1];
      match Get(table, HashKey(id))
      case None => Err(Integrity)
      case Some(e) => if !e.valid || e.id != id then Err(Integrity) else Ok(before + [e])
  }

  function EventOrder(e: Event): O.Key {
    O.Key(e.height, e.index, 0)
  }

  /** By height, then position. */
  function SortEvents(q: seq<Event>): seq<Event> {
    O.SortBy(q, EventOrder)
  }

  function LoadEvents(index: seq<Row<Hash>>, table: seq<Row<Event>>, prefix: Bytes): Result<seq<Event>, Integrity> {
    match Resolve(table, Values(Within(index, prefix)))
    case Err(e) => Err(e)
    case Ok(events) => Ok(SortEvents(events))
  }

  /** Sorting any arrangement of events that have an order restores that order. */
  lemma SortRestores(q: seq<Event>, events: seq<Event>)
    requires InOrder(events) && multiset(q) == multiset(events)
    ensures SortEvents(q) == events
  {
    assert O.Rises(events, EventOrder);
    O.SortRestores(q, events, EventOrder);
  }

  // Events by id

  lemma {:induction false} EventById(events: seq<Event>, k: nat)
    requires WellFormed(events) && k < |events|
    ensures Get(Fill(IdRows(events)), HashKey(events[k].id)) == Some(events[k])
  {
    hide Pow256, BigEndian, Put, Get;
    var before, last := events[..|events| - 1], events[|events| - 1];
    var rows := IdRows(events);
    assert rows[..|rows| - 1] == IdRows(before) && rows[|rows| - 1] == Row(HashKey(last.id), last);
    GetAfterPut(Fill(IdRows(before)), Row(HashKey(last.id), last), HashKey(events[k].id));
    if k < |before| {
      if HashKey(events[k].id) == HashKey(last.id) {
        BigEndianInjective(events[k].id, last.id, HASH_SIZE);
      }
      EventById(before, k);
    }
  }

  function Ids(events: seq<Event>): (ids: seq<Hash>)
    ensures |ids| == |events|
  {
    seq(|events|, i requires 0 <= i < |events| => events[i].id)
  }

  lemma {:induction false} ResolveFinds(events: seq<Event>, q: seq<Event>)
    requires WellFormed(events) && forall i :: 0 <= i < |q| ==> q[i] in events
    ensures Resolve(Fill(IdRows(events)), Ids(q)) == Ok(q)
  {
    hide Pow256, BigEndian, Put, Get, Fill, WellFormed;
    if q != [] {
      var before, last := q[..|q| - 1], q[|q| - 1];
      ResolveFinds(events, before);
      assert Ids(q)[..|Ids(q)| - 1] == Ids(before);
      assert last in events;
      var k :| 0 <= k < |events| && events[k] == last;
      EventById(events, k);
      ValidAt(events, k);
      assert q == before + [last];
    }
  }

  lemma ValidAt(events: seq<Event>, k: nat)
    requires WellFormed(events) && k < |events|
    ensures events[k].valid
  {
  }

  // Index rows under one target

  /** The rows of the selected events, carrying the events themselves. */
  function EventRows(ix: Index, target: nat, events: seq<Event>): (rows: seq<Row<Event>>)
    ensures |rows| == |events|
  {
    seq(|events|, i requires 0 <= i < |events| => Row(EventKey(ix, target, events[i]), events[i]))
  }

  function WithIds(rows: seq<Row<Event>>): (ids: seq<Row<Hash>>)
    ensures |ids| == |rows|
  {
    seq(|rows|, i requires 0 <= i < |rows| => Row(rows[i].key, rows[i].value.id))
  }

  lemma PrefixMatches(ix: Index, target: nat, x: nat, rest: Bytes)
    requires target < Pow256(Width(ix)) && x < Pow256(Width(ix))
    ensures Prefix(ix, target) <= Prefix(ix, x) + rest <==> target == x
  {
    assert (Prefix(ix, x) + rest)[..Width(ix)] == Prefix(ix, x);
    if Prefix(ix, target) == Prefix(ix, x) {
      BigEndianInjective(target, x, Width(ix));
    }
  }

  lemma {:induction false} RowsWithin(ix: Index, targets: seq<nat>, e: Event, target: nat)
    requires target < Pow256(Width(ix)) && NoRepeats(targets)
    requires forall i :: 0 <= i < |targets| ==> targets[i] < Pow256(Width(ix))
    ensures Within(RowsOf(ix, targets, e), Prefix(ix, target)) ==
      if target in targets then [Row(EventKey(ix, target, e), e.id)] else []
  {
    hide Pow256, BigEndian, EventKey, Within;
    if targets == [] {
      NoneWithin<Hash>([], Prefix(ix, target));
    } else {
      var before, last := targets[..|targets| - 1], targets[|targets| - 1];
      RowsWithin(ix, before, e, target);
      OneWithin(ix, target, last, e);
      WithinJoins(RowsOf(ix, before, e), [Row(EventKey(ix, last, e), e.id)], Prefix(ix, target));
      assert targets == before + [last];
    }
  }

  lemma OneWithin(ix: Index, target: nat, x: nat, e: Event)
    requires target < Pow256(Width(ix)) && x < Pow256(Width(ix))
    ensures Within([Row(EventKey(ix, x, e), e.id)], Prefix(ix, target)) ==
      if target == x then [Row(EventKey(ix, target, e), e.id)] else []
  {
    hide Pow256, BigEndian, Tail;
    PrefixMatches(ix, target, x, Tail(ix, e));
    assert Within([Row(EventKey(ix, x, e), e.id)][..0], Prefix(ix, target)) == [];
  }

  lemma TargetsSized(ix: Index, e: Event)
    requires SizedEvent(e)
    ensures NoRepeats(Targets(ix, e))
    ensures forall i :: 0 <= i < |Targets(ix, e)| ==> Targets(ix, e)[i] < Pow256(Width(ix))
  {
    hide Pow256;
  }

  lemma {:induction false} IndexWithin(ix: Index, events: seq<Event>, target: nat)
    requires target < Pow256(Width(ix))
    requires forall i :: 0 <= i < |events| ==> SizedEvent(events[i])
    ensures Within(IndexRows(ix, events), Prefix(ix, target)) ==
      WithIds(EventRows(ix, target, Selected(ix, events, target)))
  {
    hide Pow256, BigEndian, EventKey, SizedEvent, Targets, RowsOf, Within;
    if events == [] {
      NoneWithin<Hash>([], Prefix(ix, target));
    } else {
      var before, last := events[..|events| - 1], events[|events| - 1];
      IndexWithin(ix, before, target);
      WithinJoins(IndexRows(ix, before), RowsOf(ix, Targets(ix, last), last), Prefix(ix, target));
      TargetsSized(ix, last);
      RowsWithin(ix, Targets(ix, last), last, target);
      if target !in Targets(ix, last) {
        assert Selected(ix, events, target) == Selected(ix, before, target);
      }
    }
  }

  lemma {:induction false} PutIds(t: seq<Row<Event>>, row: Row<Event>)
    ensures WithIds(Put(t, row)) == Put(WithIds(t), Row(row.key, row.value.id))
  {
    hide Less;
    if t != [] {
      assert WithIds(t)[1..] == WithIds(t[1..]);
      PutIds(t[1..], row);
    }
  }

  lemma {:induction false} FillIds(rows: seq<Row<Event>>)
    ensures WithIds(Fill(rows)) == Fill(WithIds(rows))
  {
    hide Put;
    if rows != [] {
      FillIds(rows[..|rows| - 1]);
      assert WithIds(rows)[..|rows| - 1] == WithIds(rows[..|rows| - 1]);
      PutIds(Fill(rows[..|rows| - 1]), rows[|rows| - 1]);
    }
  }

  // Clashing keys

  ghost predicate DistinctKeys<V>(rows: seq<Row<V>>) {
    forall i, j :: 0 <= i < j < |rows| ==> rows[i].key != rows[j].key
  }

  lemma {:induction false} PutNew(t: seq<Row<Event>>, row: Row<Event>)
    requires Get(t, row.key).None?
    ensures multiset(Values(Put(t, row))) == multiset(Values(t)) + multiset{row.value}
    ensures |Put(t, row)| == |t| + 1
  {
    hide Less;
    if t == [] || Less(row.key, t[0].key) {
      assert Values([row] + t) == [row.value] + Values(t);
    } else {
      PutNew(t[1..], row);
      assert Values(t) == [t[0].value] + Values(t[1..]);
      assert Values(Put(t, row)) == [t[0].value] + Values(Put(t[1..], row));
    }
  }

  lemma {:induction false} PutOver<V>(t: seq<Row<V>>, row: Row<V>)
    requires Ordered(t) && Get(t, row.key).Some?
    ensures |Put(t, row)| == |t|
  {
    hide Less;
    if Less(row.key, t[0].key) {
      AbsentBelow(t, row.key);
      assert false;
    } else if row.key != t[0].key {
      PutOver(t[1..], row);
    }
  }

  lemma {:induction false} AbsentBelow<V>(t: seq<Row<V>>, key: Bytes)
    requires Ordered(t) && (t != [] ==> Less(key, t[0].key))
    ensures Get(t, key).None?
  {
    if t != [] {
      LessIsTotal(key, t[0].key);
      LessIsTotal(key, key);
      if |t| > 1 {
        LessIsTransitive(key, t[0].key, t[1].key);
      }
      AbsentBelow(t[1..], key);
    }
  }

  lemma {:induction false} FillGet<V>(rows: seq<Row<V>>, key: Bytes)
    ensures Get(Fill(rows), key).None? <==> forall i :: 0 <= i < |rows| ==> rows[i].key != key
  {
    hide Put, Get;
    if rows == [] {
      NothingThere<V>(key);
    } else {
      var before, last := rows[..|rows| - 1], rows[|rows| - 1];
      FillGet(before, key);
      GetAfterPut(Fill(before), last, key);
      assert forall i :: 0 <= i < |before| ==> rows[i] == before[i];
      assert rows[|rows| - 1] == last;
    }
  }

  lemma NothingThere<V>(key: Bytes)
    ensures Get<V>([], key).None?
  {
  }

  /** A table keeps all rows written to it exactly when no two of them share a key. */
  lemma {:induction false} FillKeeps(rows: seq<Row<Event>>)
    ensures |Fill(rows)| <= |rows|
    ensures DistinctKeys(rows) ==> multiset(Values(Fill(rows))) == multiset(Values(rows))
    ensures !DistinctKeys(rows) ==> |Fill(rows)| < |rows|
  {
    hide Put, Get;
    if rows != [] {
      var before, last := rows[..|rows| - 1], rows[|rows| - 1];
      FillKeeps(before);
      FillIsOrdered(before);
      FillGet(before, last.key);
      if Get(Fill(before), last.key).None? {
        PutNew(Fill(before), last);
      } else {
        PutOver(Fill(before), last);
      }
      assert Values(rows) == Values(before) + [last.value];
      if DistinctKeys(rows) {
        assert forall i :: 0 <= i < |before| ==> before[i].key == rows[i].key != rows[|rows| - 1].key;
        assert multiset(Values(Fill(rows))) == multiset(Values(before)) + multiset{last.value};
      } else if DistinctKeys(before) {
        assert Get(Fill(before), last.key).Some?;
      }
    }
  }

  lemma {:induction false} FillHolds<V>(rows: seq<Row<V>>)
    ensures forall i :: 0 <= i < |Fill(rows)| ==> Fill(rows)[i] in rows
  {
    hide Put;
    if rows != [] {
      var before := rows[..|rows| - 1];
      FillHolds(before);
      PutHolds(Fill(before), rows[|rows| - 1]);
      forall i | 0 <= i < |Fill(rows)|
        ensures Fill(rows)[i] in rows
      {
        assert Fill(rows)[i] == rows[|rows| - 1] || Fill(rows)[i] in before;
      }
    }
  }

  lemma {:induction false} PutHolds<V>(t: seq<Row<V>>, row: Row<V>)
    ensures forall i :: 0 <= i < |Put(t, row)| ==> Put(t, row)[i] == row || Put(t, row)[i] in t
  {
    hide Less;
    if t != [] {
      PutHolds(t[1..], row);
    }
  }

  /** Two selected events share a key: they sit at the same place as far as the key can tell. */
  predicate Clash(ix: Index, e: Event, f: Event) {
    e.index == f.index && (ix.ByAddress? ==> e.height == f.height)
  }

  ghost predicate ClashFree(ix: Index, events: seq<Event>) {
    forall i, j :: 0 <= i < j < |events| ==> !Clash(ix, events[i], events[j])
  }

  lemma KeysClash(ix: Index, target: nat, e: Event, f: Event)
    requires SizedEvent(e) && SizedEvent(f)
    ensures EventKey(ix, target, e) == EventKey(ix, target, f) <==> Clash(ix, e, f)
  {
    hide Pow256, BigEndian;
    var n := Width(ix);
    assert EventKey(ix, target, e)[n..] == Tail(ix, e) && EventKey(ix, target, f)[n..] == Tail(ix, f);
    if Tail(ix, e) == Tail(ix, f) {
      if ix.ByAddress? {
        assert Tail(ix, e)[..8] == HeightKey(e.height) && Tail(ix, f)[..8] == HeightKey(f.height);
        assert Tail(ix, e)[8..] == BigEndian(e.index, 4) && Tail(ix, f)[8..] == BigEndian(f.index, 4);
        BigEndianInjective(e.height, f.height, 8);
      }
      BigEndianInjective(e.index, f.index, 4);
    }
  }

  lemma {:induction false} SelectedFrom(ix: Index, events: seq<Event>, target: nat)
    requires InOrder(events)
    ensures InOrder(Selected(ix, events, target))
    ensures forall i :: 0 <= i < |Selected(ix, events, target)| ==> Selected(ix, events, target)[i] in events
    ensures forall i :: 0 <= i < |Selected(ix, events, target)| ==>
      target in Targets(ix, Selected(ix, events, target)[i])
  {
    hide Targets, Before;
    if events != [] {
      var before, last := events[..|events| - 1], events[|events| - 1];
      SelectedFrom(ix, before, target);
      var chosen := Selected(ix, before, target);
      forall i | 0 <= i < |chosen|
        ensures Before(chosen[i], last) && chosen[i] in events
      {
        LastAfter(events, chosen[i]);
      }
      if target !in Targets(ix, last) {
        assert Selected(ix, events, target) == chosen;
      } else {
        assert Selected(ix, events, target) == chosen + [last];
      }
    }
  }

  lemma LastAfter(events: seq<Event>, e: Event)
    requires InOrder(events) && events != [] && e in events[..|events| - 1]
    ensures Before(e, events[|events| - 1]) && e in events
  {
    hide Before;
    var k :| 0 <= k < |events| - 1 && events[..|events| - 1][k] == e;
    assert events[k] == e;
  }

  lemma DistinctIffClashFree(ix: Index, target: nat, events: seq<Event>)
    requires forall i :: 0 <= i < |events| ==> SizedEvent(events[i])
    ensures DistinctKeys(EventRows(ix, target, events)) <==> ClashFree(ix, events)
  {
    hide SizedEvent, EventKey, Clash;
    forall i, j | 0 <= i < j < |events|
      ensures EventKey(ix, target, events[i]) == EventKey(ix, target, events[j]) <==> Clash(ix, events[i], events[j])
    {
      KeysClash(ix, target, events[i], events[j]);
    }
    var rows := EventRows(ix, target, events);
    assert forall i :: 0 <= i < |rows| ==> rows[i].key == EventKey(ix, target, events[i]);
  }

  /** The events a lookup loads before sorting: those whose rows survived in the index. */
  lemma LoadedBeforeSort(ix: Index, events: seq<Event>, target: nat) returns (q: seq<Event>)
    requires WellFormed(events) && target < Pow256(Width(ix))
    ensures q == Values(Fill(EventRows(ix, target, Selected(ix, events, target))))
    ensures LoadEvents(Fill(IndexRows(ix, events)), Fill(IdRows(events)), Prefix(ix, target)) == Ok(SortEvents(q))
  {
    hide Pow256, BigEndian, EventKey, SizedEvent, Fill, Within, Selected, IndexRows, IdRows, SortEvents, Resolve;
    var selected := Selected(ix, events, target);
    var rows := EventRows(ix, target, selected);
    var kept := Fill(rows);
    q := Values(kept);
    FillWithin(IndexRows(ix, events), Prefix(ix, target));
    IndexWithin(ix, events, target);
    FillIds(rows);
    assert Values(WithIds(kept)) == Ids(q);
    FillHolds(rows);
    SelectedFrom(ix, events, target);
    forall i | 0 <= i < |q|
      ensures q[i] in events
    {
      assert kept[i] in rows;
      var k :| 0 <= k < |rows| && rows[k] == kept[i];
      assert q[i] == selected[k];
    }
    ResolveFinds(events, q);
  }

  /** A lookup returns exactly the events filed under its target, in chain order, if and only
      if no two of them clash. It never fails. */
  lemma EventLookup(ix: Index, events: seq<Event>, target: nat)
    requires WellFormed(events) && target < Pow256(Width(ix))
    ensures LoadEvents(Fill(IndexRows(ix, events)), Fill(IdRows(events)), Prefix(ix, target)).Ok?
    ensures LoadEvents(Fill(IndexRows(ix, events)), Fill(IdRows(events)), Prefix(ix, target)) ==
      Ok(Selected(ix, events, target))
      <==> ClashFree(ix, Selected(ix, events, target))
  {
    hide Pow256, BigEndian, EventKey, Fill, Within, Selected, IndexRows, IdRows, LoadEvents;
    var selected := Selected(ix, events, target);
    var q := LoadedBeforeSort(ix, events, target);
    SelectedFrom(ix, events, target);
    forall i | 0 <= i < |selected|
      ensures SizedEvent(selected[i])
    {
      assert selected[i] in events;
    }
    DistinctIffClashFree(ix, target, selected);
    FillKeeps(EventRows(ix, target, selected));
    assert Values(EventRows(ix, target, selected)) == selected;
    O.SortKeeps(q, EventOrder);
    if ClashFree(ix, selected) {
      SortRestores(q, selected);
    }
  }

  /** Address lookups never lose an event: places in the chain are distinct. */
  lemma AddressLookup(events: seq<Event>, a: Address)
    requires WellFormed(events) && a < Pow256(ADDRESS_SIZE)
    ensures LoadEvents(Fill(IndexRows(ByAddress, events)), Fill(IdRows(events)), AddressKey(a)) ==
      Ok(Selected(ByAddress, events, a))
  {
    hide Fill, Within, Selected, IndexRows, IdRows, LoadEvents, Pow256, BigEndian;
    SelectedFrom(ByAddress, events, a);
    assert ClashFree(ByAddress, Selected(ByAddress, events, a));
    EventLookup(ByAddress, events, a);
  }

  /** Nor do block lookups, when a block hash stands for one height. */
  lemma BlockLookup(events: seq<Event>, hash: Hash)
    requires WellFormed(events) && hash < Pow256(HASH_SIZE)
    requires forall i, j :: 0 <= i < j < |events| && events[i].blockHash == events[j].blockHash ==>
      events[i].height == events[j].height
    ensures LoadEvents(Fill(IndexRows(ByBlock, events)), Fill(IdRows(events)), HashKey(hash)) ==
      Ok(Selected(ByBlock, events, hash))
  {
    hide Fill, Within, Selected, IndexRows, IdRows, LoadEvents, Pow256, BigEndian;
    var selected := Selected(ByBlock, events, hash);
    SelectedFrom(ByBlock, events, hash);
    forall i, j | 0 <= i < j < |selected|
      ensures !Clash(ByBlock, selected[i], selected[j])
    {
      assert selected[i] in events && selected[j] in events;
      var m :| 0 <= m < |events| && events[m] == selected[i];
      var n :| 0 <= n < |events| && events[n] == selected[j];
      assert Before(selected[i], selected[j]);
    }
    EventLookup(ByBlock, events, hash);
  }

  const FIRST := Event(1, 1, 1, 0, Some(1), Withdrawn(0), true)
  const SECOND := Event(2, 2, 2, 0, Some(1), Withdrawn(0), true)

  lemma RepeatedSelected()
    ensures Selected(ByTransaction, [FIRST, SECOND], 1) == [FIRST, SECOND]
  {
    assert [FIRST, SECOND][..1] == [FIRST] && [FIRST][..0] == [];
    assert Selected(ByTransaction, [FIRST], 1) == Selected(ByTransaction, [], 1) + [FIRST];
  }

  /** A transaction that takes effect in two blocks at the same position loses an event. */
  lemma RepeatedTransactionLosesEvent()
    requires 2 < Pow256(HASH_SIZE)
    ensures WellFormed([FIRST, SECOND])
    ensures Selected(ByTransaction, [FIRST, SECOND], 1) == [FIRST, SECOND]
    ensures LoadEvents(Fill(IndexRows(ByTransaction, [FIRST, SECOND])), Fill(IdRows([FIRST, SECOND])), HashKey(1))
      != Ok([FIRST, SECOND])
  {
    hide Fill, IndexRows, IdRows, LoadEvents, BigEndian, Selected;
    RepeatedSelected();
    assert Pow256(8) > 2 && Pow256(4) > 2;
    assert WellFormed([FIRST, SECOND]);
    assert Clash(ByTransaction, [FIRST, SECOND][0], [FIRST, SECOND][1]);
    EventLookup(ByTransaction, [FIRST, SECOND], 1);
  }
}

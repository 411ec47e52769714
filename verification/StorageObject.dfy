/** The storage itself: saving a ledger replaces the canonical tables in one transaction, and
    the loaders walk them. */
module StorageObject {
  import opened Paqus
  import opened ByteTable
  import opened StorageIndex
  import opened StorageHistory
  import E = StorageEvents
  import O = Ordering

  /** What a save reads from a ledger. */
  datatype Book = Book(chain: seq<Block>, eventsOf: Hash -> seq<E.Event>)

  datatype Tables = Tables(
    blocks: seq<Row<Block>>,
    byHash: seq<Row<Block>>,
    txs: seq<Row<TxLocation>>,
    addressTxs: seq<Row<AddressLocation>>,
    minerBlocks: seq<Row<MinerLocation>>,
    events: seq<Row<E.Event>>,
    blockEvents: seq<Row<Hash>>,
    txEvents: seq<Row<Hash>>,
    addressEvents: seq<Row<Hash>>,
    tip: Option<(nat, Hash)>)

  function AllEvents(book: Book, n: nat): seq<E.Event>
    requires n <= |book.chain|
  {
    if n == 0 then [] else AllEvents(book, n - 1) + book.eventsOf(book.chain[n - 1].header.hash)
  }

  predicate AllValid(events: seq<E.Event>) {
    forall i :: 0 <= i < |events| ==> events[i].valid
  }

  predicate BlockStorable(book: Book, ok: Block -> bool, b: Block) {
    ok(b) && |b.body.txs| <= U32_MAX + 1 && AllValid(book.eventsOf(b.header.hash))
  }

  /** A save goes through when every block passes its check, positions fit 32 bits and all
      events are valid. */
  predicate Storable(book: Book, ok: Block -> bool, n: nat)
    requires n <= |book.chain|
  {
    forall i :: 0 <= i < n ==> BlockStorable(book, ok, book.chain[i])
  }

  /** Blocks by hash are never cleared. */
  function HashPuts(t: seq<Row<Block>>, chain: seq<Block>): seq<Row<Block>> {
    if chain == [] then t else
    var last := chain[|chain| - 1];
    Put(HashPuts(t, chain[..|chain| - 1]), Row(HashKey(last.header.hash), last))
  }

  function TipOf(t: Option<(nat, Hash)>, chain: seq<Block>): Option<(nat, Hash)> {
    if chain == [] then t else
    Some((chain[|chain| - 1].header.height, chain[|chain| - 1].header.hash))
  }

  /** The tables after the first `n` blocks of a save have been written. */
  function Written(t: Tables, book: Book, n: nat): Tables
    requires n <= |book.chain|
  {
    var chain, events := book.chain[..n], AllEvents(book, n);
    Tables(
      Fill(BlockRows(chain)), HashPuts(t.byHash, chain), Fill(TxRows(chain)),
      Fill(AddressRows(chain)), Fill(MinerRows(chain)),
      Fill(E.IdRows(events)), Fill(E.IndexRows(E.ByBlock, events)),
      Fill(E.IndexRows(E.ByTransaction, events)), Fill(E.IndexRows(E.ByAddress, events)),
      t.tip)
  }

  function Saved(t: Tables, book: Book): Tables {
    Written(t, book, |book.chain|).(tip := TipOf(t.tip, book.chain))
  }

  function Save(t: Tables, book: Book, ok: Block -> bool): Tables {
    if Storable(book, ok, |book.chain|) then Saved(t, book) else t
  }

  function SaveAll(t: Tables, books: seq<Book>, ok: Block -> bool): Tables {
    if books == [] then t else Save(SaveAll(t, books[..|books| - 1], ok), books[|books| - 1], ok)
  }

  function LastSaved(books: seq<Book>, ok: Block -> bool): Option<Book> {
    if books == [] then None
    else if Storable(books[|books| - 1], ok, |books[|books| - 1].chain|) then Some(books[|books| - 1])
    else LastSaved(books[..|books| - 1], ok)
  }

  // Loading

  function AddressOrder(l: AddressLocation): O.Key {
    O.Key(l.height, l.index, if l.sent then 1 else 0)
  }

  function MinerOrder(l: MinerLocation): O.Key {
    O.Key(l.height, 0, 0)
  }

  function AddressLocations(t: Tables, a: Address): seq<AddressLocation> {
    O.SortBy(Values(Within(t.addressTxs, AddressKey(a))), AddressOrder)
  }

  function MinerLocations(t: Tables, a: Address): seq<MinerLocation> {
    O.SortBy(Values(Within(t.minerBlocks, AddressKey(a))), MinerOrder)
  }

  lemma {:induction false} SavesKeepLast(t: Tables, books: seq<Book>, ok: Block -> bool)
    requires LastSaved(books, ok).Some?
    ensures
      var last := LastSaved(books, ok).value;
      var now := SaveAll(t, books, ok);
      now == Written(t, last, |last.chain|).(byHash := now.byHash, tip := now.tip)
  {
    var newest := books[|books| - 1];
    if !Storable(newest, ok, |newest.chain|) {
      SavesKeepLast(t, books[..|books| - 1], ok);
    }
  }

  /** A save goes through exactly when every block of the ledger passes its check, has positions that fit
      32 bits and only valid events; otherwise it changes nothing. */
  lemma SaveGoesThroughIff(t: Tables, book: Book, ok: Block -> bool)
    ensures
      var fine := forall i :: 0 <= i < |book.chain| ==>
        && ok(book.chain[i]) && |book.chain[i].body.txs| <= 0x1_0000_0000
        && forall e :: e in book.eventsOf(book.chain[i].header.hash) ==> e.valid;
      && (fine <==> LastSaved([book], ok) == Some(book))
      && (!fine ==> Save(t, book, ok) == t)
  {
    hide Written;
    assert [book][..0] == [] && LastSaved([], ok) == None;
    if Storable(book, ok, |book.chain|) {
      forall i, e | 0 <= i < |book.chain| && e in book.eventsOf(book.chain[i].header.hash) ensures e.valid {
        assert BlockStorable(book, ok, book.chain[i]);
      }
    }
  }

  /** Blocks by hash: after a save every block of the chain is found under its hash, and what was there
      under other hashes stays. */
  lemma {:induction false} SavedByHash(t: seq<Row<Block>>, chain: seq<Block>, h: Hash)
    requires h < Pow256(HASH_SIZE) && forall i :: 0 <= i < |chain| ==> chain[i].header.hash < Pow256(HASH_SIZE)
    requires forall i, j :: 0 <= i < j < |chain| ==> chain[i].header.hash != chain[j].header.hash
    ensures forall i :: 0 <= i < |chain| && chain[i].header.hash == h ==>
      Get(HashPuts(t, chain), HashKey(h)) == Some(chain[i])
    ensures (forall i :: 0 <= i < |chain| ==> chain[i].header.hash != h) ==>
      Get(HashPuts(t, chain), HashKey(h)) == Get(t, HashKey(h))
  {
    hide Pow256, BigEndian, Put, Get;
    if chain != [] {
      var front, last := chain[..|chain| - 1], chain[|chain| - 1];
      SavedByHash(t, front, h);
      GetAfterPut(HashPuts(t, front), Row(HashKey(last.header.hash), last), HashKey(h));
      if HashKey(h) == HashKey(last.header.hash) { BigEndianInjective(h, last.header.hash, HASH_SIZE); }
      assert forall i :: 0 <= i < |front| ==> front[i] == chain[i];
    }
  }

  /** After any sequence of saves, lookups by transaction, address and miner return what
      searching the last saved chain returns, in chain order, with nothing left over from
      earlier saves. */
  lemma LookupsFollowLastSave(t: Tables, books: seq<Book>, ok: Block -> bool, hash: Hash, a: Address)
    requires LastSaved(books, ok).Some? && Stacked(LastSaved(books, ok).value.chain)
    requires hash < Pow256(HASH_SIZE) && a < Pow256(ADDRESS_SIZE)
    ensures
      var chain := LastSaved(books, ok).value.chain;
      var now := SaveAll(t, books, ok);
      && LoadTransaction(now.blocks, now.txs, hash) == Ok(LastInChain(chain, hash))
      && AddressLocations(now, a) == History(chain, a)
      && MinerLocations(now, a) == Mined(chain, a)
  {
    hide Pow256, BigEndian, Fill, Within, LoadTransaction, LastInChain, History, Mined;
    SavesKeepLast(t, books, ok);
    var book := LastSaved(books, ok).value;
    var chain := book.chain;
    assert chain[..|chain|] == chain;
    LoadTransactionFinds(chain, hash);
    AddressHistory(chain, a);
    O.SortInOrder(History(chain, a), AddressOrder);
    MinerHistory(chain, a);
    O.SortInOrder(Mined(chain, a), MinerOrder);
  }

  /** What the ledger guarantees of the events it keeps for a block. */
  ghost predicate EventsOfBlock(events: seq<E.Event>, b: Block) {
    && (forall i :: 0 <= i < |events| ==> events[i].height == b.header.height && events[i].blockHash == b.header.hash)
    && forall i, j :: 0 <= i < j < |events| ==> events[i].index < events[j].index
  }

  /** An event belongs to the `k`-th block of the chain. */
  ghost predicate BelongsTo(e: E.Event, book: Book, k: int) {
    0 <= k < |book.chain| && e.height == book.chain[k].header.height && e.blockHash == book.chain[k].header.hash
  }

  ghost predicate BelongsBelow(e: E.Event, book: Book, n: nat) {
    exists k :: k < n && BelongsTo(e, book, k)
  }

  /** A ledger's events: each block has its own hash and lists its events by position, and
      event ids differ. */
  ghost predicate KeepsEvents(book: Book) {
    var events := AllEvents(book, |book.chain|);
    && Stacked(book.chain)
    && (forall i, j :: 0 <= i < j < |book.chain| ==> book.chain[i].header.hash != book.chain[j].header.hash)
    && (forall i :: 0 <= i < |book.chain| ==> EventsOfBlock(book.eventsOf(book.chain[i].header.hash), book.chain[i]))
    && (forall i :: 0 <= i < |events| ==> E.SizedEvent(events[i]))
    && (forall i, j :: 0 <= i < j < |events| ==> events[i].id != events[j].id)
  }

  lemma {:induction false} AllEventsInOrder(book: Book, ok: Block -> bool, n: nat)
    requires n <= |book.chain| && Stacked(book.chain) && Storable(book, ok, n)
    requires forall i :: 0 <= i < n ==> EventsOfBlock(book.eventsOf(book.chain[i].header.hash), book.chain[i])
    ensures E.InOrder(AllEvents(book, n)) && AllValid(AllEvents(book, n))
    ensures forall i :: 0 <= i < |AllEvents(book, n)| ==> BelongsBelow(AllEvents(book, n)[i], book, n)
  {
    if n > 0 {
      AllEventsInOrder(book, ok, n - 1);
      var before, b := AllEvents(book, n - 1), book.chain[n - 1];
      var here := book.eventsOf(b.header.hash);
      assert EventsOfBlock(here, b) && BlockStorable(book, ok, b);
      forall i | 0 <= i < |before|
        ensures before[i].height < b.header.height
      {
        var k :| k < n - 1 && BelongsTo(before[i], book, k);
      }
      forall i | 0 <= i < |here|
        ensures BelongsBelow(here[i], book, n)
      {
        assert BelongsTo(here[i], book, n - 1);
      }
    }
  }

  lemma SavedEventsWellFormed(book: Book, ok: Block -> bool)
    requires KeepsEvents(book) && Storable(book, ok, |book.chain|)
    ensures
      var events := AllEvents(book, |book.chain|);
      && E.WellFormed(events)
      && forall i, j :: 0 <= i < j < |events| && events[i].blockHash == events[j].blockHash ==>
           events[i].height == events[j].height
  {
    hide E.SizedEvent, E.InOrder, AllEvents, Stacked;
    var events := AllEvents(book, |book.chain|);
    AllEventsInOrder(book, ok, |book.chain|);
    forall i, j | 0 <= i < j < |events| && events[i].blockHash == events[j].blockHash
      ensures events[i].height == events[j].height
    {
      var k :| k < |book.chain| && BelongsTo(events[i], book, k);
      var l :| l < |book.chain| && BelongsTo(events[j], book, l);
    }
  }

  /** The event lookups likewise: by block and by address always, by transaction exactly when no
      two events of the transaction sit at the same position. */
  lemma EventLookupsFollowLastSave(t: Tables, books: seq<Book>, ok: Block -> bool, hash: Hash, a: Address)
    requires LastSaved(books, ok).Some? && KeepsEvents(LastSaved(books, ok).value)
    requires hash < Pow256(HASH_SIZE) && a < Pow256(ADDRESS_SIZE)
    ensures
      var book := LastSaved(books, ok).value;
      var events := AllEvents(book, |book.chain|);
      var now := SaveAll(t, books, ok);
      && E.LoadEvents(now.blockEvents, now.events, HashKey(hash)) == Ok(E.Selected(E.ByBlock, events, hash))
      && E.LoadEvents(now.addressEvents, now.events, AddressKey(a)) == Ok(E.Selected(E.ByAddress, events, a))
      && E.LoadEvents(now.txEvents, now.events, HashKey(hash)).Ok?
      && (E.LoadEvents(now.txEvents, now.events, HashKey(hash)) == Ok(E.Selected(E.ByTransaction, events, hash))
          <==> E.ClashFree(E.ByTransaction, E.Selected(E.ByTransaction, events, hash)))
  {
    hide Pow256, BigEndian, Fill, AllEvents, KeepsEvents, E.LoadEvents, E.Selected, E.IndexRows, E.IdRows, E.WellFormed;
    SavesKeepLast(t, books, ok);
    LastSavedIsStorable(books, ok);
    var book := LastSaved(books, ok).value;
    SavedEventsWellFormed(book, ok);
    E.BlockLookup(AllEvents(book, |book.chain|), hash);
    E.AddressLookup(AllEvents(book, |book.chain|), a);
    E.EventLookup(E.ByTransaction, AllEvents(book, |book.chain|), hash);
  }

  lemma {:induction false} LastSavedIsStorable(books: seq<Book>, ok: Block -> bool)
    requires LastSaved(books, ok).Some?
    ensures var book := LastSaved(books, ok).value; Storable(book, ok, |book.chain|)
  {
    var newest := books[|books| - 1];
    if !Storable(newest, ok, |newest.chain|) {
      LastSavedIsStorable(books[..|books| - 1], ok);
    }
  }

  // Integrity

  predicate Loads(blocks: seq<Row<Block>>, height: nat) {
    var found := Get(blocks, HeightKey(height));
    found.Some? && found.value.header.height == height
  }

  function At(blocks: seq<Row<Block>>, height: nat): Block
    requires Loads(blocks, height)
  {
    Get(blocks, HeightKey(height)).value
  }

  predicate Joined(blocks: seq<Row<Block>>, height: nat)
    requires Loads(blocks, height)
  {
    if height == 0 then At(blocks, height).header.previous == ZERO_HASH
    else Loads(blocks, height - 1) && At(blocks, height).header.previous == At(blocks, height - 1).header.hash
  }

  /** The stored blocks lead from the stored tip down to a genesis block, each naming the one
      below it. */
  ghost predicate Intact(t: Tables) {
    t.tip.Some? ==>
      var (height, hash) := t.tip.value;
      && Loads(t.blocks, height) && At(t.blocks, height).header.hash == hash
      && forall h: nat :: h <= height ==> Loads(t.blocks, h) && Joined(t.blocks, h)
  }

  ghost predicate Linked(chain: seq<Block>) {
    && (forall i :: 0 <= i < |chain| ==> chain[i].header.height == i)
    && (forall i, j :: 0 <= i < |chain| && j == i + 1 < |chain| ==> chain[j].header.previous == chain[i].header.hash)
    && (chain != [] ==> chain[0].header.previous == ZERO_HASH)
  }

  lemma {:induction false} StoredHeights(chain: seq<Block>, height: nat)
    requires Stacked(chain) && height < Pow256(8)
    requires Get(Fill(BlockRows(chain)), HeightKey(height)).Some?
    ensures exists k :: 0 <= k < |chain| && chain[k].header.height == height
  {
    hide Pow256, BigEndian, Put;
    var before, last := chain[..|chain| - 1], chain[|chain| - 1];
    FillLast(BlockRows(before), BlockRow(last));
    GetAfterPut(Fill(BlockRows(before)), BlockRow(last), HeightKey(height));
    if HeightKey(height) == HeightKey(last.header.height) {
      BigEndianInjective(height, last.header.height, 8);
    } else {
      StoredHeights(before, height);
      var k :| 0 <= k < |before| && before[k].header.height == height;
      assert chain[k].header.height == height;
    }
  }

  /** If every height up to the tip loads, the chain has a block at each of them. */
  lemma {:induction false} NoGaps(chain: seq<Block>, n: nat)
    requires Stacked(chain) && n <= |chain|
    requires forall h: nat :: chain != [] && h <= chain[|chain| - 1].header.height ==> Loads(Fill(BlockRows(chain)), h)
    ensures forall i :: 0 <= i < n ==> chain[i].header.height == i
  {
    hide Pow256, BigEndian, Fill, BlockRows, Get;
    if n > 0 {
      NoGaps(chain, n - 1);
      var h := chain[n - 1].header.height;
      assert n > 1 ==> chain[n - 2].header.height < h;
      assert n < |chain| ==> h < chain[|chain| - 1].header.height;
      assert Loads(Fill(BlockRows(chain)), n - 1);
      StoredHeights(chain, n - 1);
      var k :| 0 <= k < |chain| && chain[k].header.height == n - 1;
    }
  }

  /** The blocks of the chain load at their heights. */
  ghost predicate Serves(blocks: seq<Row<Block>>, chain: seq<Block>) {
    forall k :: 0 <= k < |chain| ==>
      Loads(blocks, chain[k].header.height) && At(blocks, chain[k].header.height) == chain[k]
  }

  lemma LinkedIfJoined(blocks: seq<Row<Block>>, chain: seq<Block>)
    requires chain != [] && Serves(blocks, chain)
    requires forall i :: 0 <= i < |chain| ==> chain[i].header.height == i && Loads(blocks, i) && Joined(blocks, i)
    ensures Linked(chain)
  {
    hide Get, Joined, Serves, At;
    forall i, j | 0 <= i < |chain| && j == i + 1 < |chain|
      ensures chain[j].header.previous == chain[i].header.hash
    {
      JoinedMeans(blocks, chain, j);
    }
    JoinedMeans(blocks, chain, 0);
  }

  lemma JoinedMeans(blocks: seq<Row<Block>>, chain: seq<Block>, h: nat)
    requires Serves(blocks, chain) && h < |chain| && chain[h].header.height == h && Loads(blocks, h)
    requires h > 0 ==> chain[h - 1].header.height == h - 1
    ensures Joined(blocks, h) <==> chain[h].header.previous == if h == 0 then ZERO_HASH else chain[h - 1].header.hash
  {
    hide Get;
    assert At(blocks, chain[h].header.height) == chain[h];
    assert h > 0 ==> At(blocks, chain[h - 1].header.height) == chain[h - 1];
  }

  lemma JoinedIfLinked(blocks: seq<Row<Block>>, chain: seq<Block>, h: nat)
    requires Serves(blocks, chain) && Linked(chain) && h < |chain|
    ensures Loads(blocks, h) && Joined(blocks, h)
  {
    hide Get, Joined;
    assert chain[h].header.height == h;
    assert h > 0 ==> chain[h - 1].header.height == h - 1;
    JoinedMeans(blocks, chain, h);
  }

  /** Stored integrity holds after saving a chain exactly when the chain runs from a genesis
      block without gaps, each block naming the one before it. */
  lemma SavedIntactIffLinked(t: Tables, book: Book)
    requires Stacked(book.chain) && book.chain != []
    ensures Intact(Saved(t, book)) <==> Linked(book.chain)
  {
    hide Pow256, BigEndian, Fill, BlockRows, Get, Joined;
    var chain := book.chain;
    assert chain[..|chain|] == chain;
    var blocks := Saved(t, book).blocks;
    forall k | 0 <= k < |chain|
      ensures Loads(blocks, chain[k].header.height) && At(blocks, chain[k].header.height) == chain[k]
    {
      BlockByHeight(chain, k);
    }
    if Intact(Saved(t, book)) {
      NoGaps(chain, |chain|);
      LinkedIfJoined(blocks, chain);
    }
    if Linked(chain) {
      forall h: nat | h <= chain[|chain| - 1].header.height
        ensures Loads(blocks, h) && Joined(blocks, h)
      {
        JoinedIfLinked(blocks, chain, h);
      }
    }
  }

  // Reading an event index

  lemma {:induction false} ResolveStops(table: seq<Row<E.Event>>, ids: seq<Hash>, k: nat)
    requires k <= |ids| && E.Resolve(table, ids[..k]).Err?
    ensures E.Resolve(table, ids) == Err(Integrity)
    decreases |ids|
  {
    hide Get, HashKey;
    if k < |ids| {
      assert ids[..|ids| - 1][..k] == ids[..k];
      ResolveStops(table, ids[..|ids| - 1], k);
    } else {
      assert ids[..k] == ids;
      assert E.Resolve(table, ids).error.Integrity?;
    }
  }

  lemma ResolveNext(table: seq<Row<E.Event>>, ids: seq<Hash>, id: Hash)
    requires E.Resolve(table, ids).Ok?
    ensures
      var found := Get(table, HashKey(id));
      E.Resolve(table, ids + [id]) ==
        if found.None? || !found.value.valid || found.value.id != id then Err(Integrity)
        else Ok(E.Resolve(table, ids).value + [found.value])
  {
    hide Get, HashKey;
    assert (ids + [id])[..|ids|] == ids;
  }

  lemma NothingResolved(table: seq<Row<E.Event>>, none: seq<Row<Hash>>, prefix: Bytes)
    requires none == []
    ensures E.Resolve(table, Values(Within(none, prefix))) == Ok([])
  {
  }

  lemma WithinNext<V>(t: seq<Row<V>>, i: nat, prefix: Bytes)
    requires i < |t|
    ensures Values(Within(t[..i + 1], prefix)) ==
      if prefix <= t[i].key then Values(Within(t[..i], prefix)) + [t[i].value] else Values(Within(t[..i], prefix))
  {
    assert t[..i + 1][..i] == t[..i];
  }

  lemma WithinPrefix<V>(t: seq<Row<V>>, i: nat, prefix: Bytes)
    requires i <= |t|
    ensures Values(Within(t[..i], prefix)) <= Values(Within(t, prefix))
  {
    assert t == t[..i] + t[i..];
    WithinJoins(t[..i], t[i..], prefix);
  }

  class Storage {
    var tables: Tables

    /** Every table lists its rows in key order. */
    ghost predicate Valid()
      reads this
    {
      && Ordered(tables.addressTxs) && Ordered(tables.minerBlocks)
      && Ordered(tables.blockEvents) && Ordered(tables.txEvents) && Ordered(tables.addressEvents)
    }

    constructor ()
      ensures Valid()
      ensures tables == Tables([], [], [], [], [], [], [], [], [], None)
    {
      tables := Tables([], [], [], [], [], [], [], [], [], None);
    }

    /** Replaces the canonical tables with those of `book`, or changes nothing if a check fails. */
    method SaveLedger(book: Book, ok: Block -> bool) returns (saved: bool)
      requires Valid()
      modifies this
      ensures Valid()
      ensures saved <==> Storable(book, ok, |book.chain|)
      ensures tables == Save(old(tables), book, ok)
    {
      hide Written, Ordered, BlockStorable;
      var t := Tables([], tables.byHash, [], [], [], [], [], [], [], tables.tip);
      WrittenNothing(tables, book);
      for n := 0 to |book.chain|
        invariant t == Written(tables, book, n)
        invariant Storable(book, ok, n)
        invariant tables == old(tables)
      {
        var stored;
        stored, t := WriteBlock(t, book, ok, n, tables);
        if !stored {
          return false;
        }
      }
      if book.chain != [] {
        var last := book.chain[|book.chain| - 1];
        t := t.(tip := Some((last.header.height, last.header.hash)));
      } else {
        KeepsTip(tables, book);
      }
      tables := t;
      WrittenIsOrdered(old(tables), book);
      return true;
    }

    static lemma WrittenNothing(t: Tables, book: Book)
      ensures Written(t, book, 0) == Tables([], t.byHash, [], [], [], [], [], [], [], t.tip)
    {
    }

    static lemma KeepsTip(t: Tables, book: Book)
      ensures Written(t, book, |book.chain|).tip == t.tip
    {
    }

    /** Writes one block with its index entries. */
    static method WriteBlock(t: Tables, book: Book, ok: Block -> bool, n: nat, ghost base: Tables)
      returns (stored: bool, r: Tables)
      requires n < |book.chain| && t == Written(base, book, n)
      ensures stored <==> BlockStorable(book, ok, book.chain[n])
      ensures stored ==> r == Written(base, book, n + 1)
    {
      hide BigEndian, Pow256, Put, Fill, Less, BlockTxRows, BlockAddressRows, BlockMinerRows, AllValid, E.IdRows,
        E.IndexRows;
      var b := book.chain[n];
      if !ok(b) {
        return false, t;
      }
      ghost var before := book.chain[..n];
      var fits, txs, addressTxs := IndexBlockTransactions(t.txs, t.addressTxs, b, TxRows(before), AddressRows(before));
      if !fits {
        return false, t;
      }
      var minerBlocks := IndexMinerBlock(t.minerBlocks, b, MinerRows(before));
      var valid, indexed := IndexProtocolEvents(t, book.eventsOf(b.header.hash), AllEvents(book, n));
      if !valid {
        return false, t;
      }
      RowsGrow(before, b, base.byHash);
      assert book.chain[..n + 1] == before + [b];
      return true, indexed.(
        blocks := Put(t.blocks, BlockRow(b)), byHash := Put(t.byHash, Row(HashKey(b.header.hash), b)),
        txs := txs, addressTxs := addressTxs, minerBlocks := minerBlocks);
    }

    static lemma RowsGrow(before: seq<Block>, b: Block, byHash: seq<Row<Block>>)
      ensures Fill(BlockRows(before + [b])) == Put(Fill(BlockRows(before)), BlockRow(b))
      ensures HashPuts(byHash, before + [b]) == Put(HashPuts(byHash, before), Row(HashKey(b.header.hash), b))
      ensures TxRows(before + [b]) == TxRows(before) + BlockTxRows(b, |b.body.txs|)
      ensures AddressRows(before + [b]) == AddressRows(before) + BlockAddressRows(b, |b.body.txs|)
      ensures MinerRows(before + [b]) == MinerRows(before) + BlockMinerRows(b)
    {
      hide BigEndian, Fill, Put, BlockTxRows, BlockAddressRows, BlockMinerRows;
      assert (before + [b])[..|before|] == before;
      FillLast(BlockRows(before), BlockRow(b));
    }

    static lemma WrittenIsOrdered(t: Tables, book: Book)
      ensures Ordered(Saved(t, book).addressTxs) && Ordered(Saved(t, book).minerBlocks)
      ensures Ordered(Saved(t, book).blockEvents) && Ordered(Saved(t, book).txEvents)
      ensures Ordered(Saved(t, book).addressEvents)
    {
      hide Fill, Ordered;
      var chain, events := book.chain[..|book.chain|], AllEvents(book, |book.chain|);
      FillIsOrdered(AddressRows(chain));
      FillIsOrdered(MinerRows(chain));
      FillIsOrdered(E.IndexRows(E.ByBlock, events));
      FillIsOrdered(E.IndexRows(E.ByTransaction, events));
      FillIsOrdered(E.IndexRows(E.ByAddress, events));
    }

    static method IndexMinerBlock(minerBlocks: seq<Row<MinerLocation>>, b: Block, ghost rows: seq<Row<MinerLocation>>)
      returns (r: seq<Row<MinerLocation>>)
      requires minerBlocks == Fill(rows)
      ensures r == Fill(rows + BlockMinerRows(b))
    {
      hide BigEndian, Pow256, Fill, Put, Less;
      if b.body.coinbase.None? {
        assert rows + [] == rows;
        return minerBlocks;
      }
      var row := MinerRow(b);
      FillLast(rows, row);
      return Put(minerBlocks, row);
    }

    static method IndexBlockTransactions(txs: seq<Row<TxLocation>>, addressTxs: seq<Row<AddressLocation>>, b: Block,
        ghost txRows: seq<Row<TxLocation>>, ghost addressRows: seq<Row<AddressLocation>>)
      returns (fits: bool, txs': seq<Row<TxLocation>>, addressTxs': seq<Row<AddressLocation>>)
      requires txs == Fill(txRows) && addressTxs == Fill(addressRows)
      ensures fits <==> |b.body.txs| <= U32_MAX + 1
      ensures fits ==> txs' == Fill(txRows + BlockTxRows(b, |b.body.txs|))
      ensures fits ==> addressTxs' == Fill(addressRows + BlockAddressRows(b, |b.body.txs|))
    {
      hide BigEndian, Pow256, Fill, Put, Less;
      txs', addressTxs' := txs, addressTxs;
      assert txRows + BlockTxRows(b, 0) == txRows && addressRows + BlockAddressRows(b, 0) == addressRows;
      for i := 0 to |b.body.txs|
        invariant i <= U32_MAX + 1
        invariant txs' == Fill(txRows + BlockTxRows(b, i))
        invariant addressTxs' == Fill(addressRows + BlockAddressRows(b, i))
      {
        if i > U32_MAX {
          return false, txs', addressTxs';
        }
        var row := TxRow(b, i);
        FillLast(txRows + BlockTxRows(b, i), row);
        assert txRows + BlockTxRows(b, i) + [row] == txRows + BlockTxRows(b, i + 1);
        txs' := Put(txs', row);
        addressTxs' := IndexAddresses(addressTxs', b, i, addressRows + BlockAddressRows(b, i));
        assert addressRows + BlockAddressRows(b, i) + TxAddressRows(b, i) == addressRows + BlockAddressRows(b, i + 1);
      }
      fits := true;
    }

    static method IndexAddresses(addressTxs: seq<Row<AddressLocation>>, b: Block, i: nat,
        ghost rows: seq<Row<AddressLocation>>)
      returns (r: seq<Row<AddressLocation>>)
      requires i < |b.body.txs| && addressTxs == Fill(rows)
      ensures r == Fill(rows + TxAddressRows(b, i))
    {
      hide BigEndian, Pow256, Fill, Put, Less, AddressRow;
      var tx := b.body.txs[i];
      var signed := AddressRow(tx.signer, Located(b, i, true));
      ghost var start := rows + [signed];
      FillLast(rows, signed);
      r := Put(addressTxs, signed);
      assert start + RecipientRows(b, i, tx.recipients[..0]) == start;
      for j := 0 to |tx.recipients|
        invariant r == Fill(start + RecipientRows(b, i, tx.recipients[..j]))
      {
        ghost var so := start + RecipientRows(b, i, tx.recipients[..j]);
        ghost var now := start + RecipientRows(b, i, tx.recipients[..j + 1]);
        assert tx.recipients[..j + 1][..j] == tx.recipients[..j];
        if tx.recipients[j] != tx.signer {
          var row := AddressRow(tx.recipients[j], Located(b, i, false));
          FillLast(so, row);
          assert so + [row] == now;
          r := Put(r, row);
        } else {
          assert now == so;
        }
      }
      assert tx.recipients[..|tx.recipients|] == tx.recipients;
      assert start + RecipientRows(b, i, tx.recipients) == rows + TxAddressRows(b, i);
    }

    static method IndexProtocolEvents(t: Tables, events: seq<E.Event>, ghost before: seq<E.Event>)
      returns (valid: bool, r: Tables)
      requires EventTables(t, before)
      ensures valid <==> AllValid(events)
      ensures valid ==> EventTables(r, before + events)
      ensures valid ==> r.byHash == t.byHash && r.tip == t.tip
    {
      hide BigEndian, Pow256, Fill, Put, Less, E.RowsOf, E.Targets;
      r := t;
      assert before + events[..0] == before;
      for i := 0 to |events|
        invariant AllValid(events[..i])
        invariant EventTables(r, before + events[..i])
        invariant r.byHash == t.byHash && r.tip == t.tip
      {
        var e := events[i];
        if !e.valid {
          return false, r;
        }
        ghost var so, now := before + events[..i], before + events[..i + 1];
        assert now[..|now| - 1] == so && now[|now| - 1] == e;
        FillLast(E.IdRows(so), Row(HashKey(e.id), e));
        var stored := Put(r.events, Row(HashKey(e.id), e));
        var blockEvents := IndexEvent(E.ByBlock, r.blockEvents, e, E.IndexRows(E.ByBlock, so));
        var txEvents := IndexEvent(E.ByTransaction, r.txEvents, e, E.IndexRows(E.ByTransaction, so));
        var addressEvents := IndexEvent(E.ByAddress, r.addressEvents, e, E.IndexRows(E.ByAddress, so));
        r := r.(events := stored, blockEvents := blockEvents, txEvents := txEvents, addressEvents := addressEvents);
      }
      assert events[..|events|] == events;
      valid := true;
    }

    static method IndexEvent(ix: E.Index, index: seq<Row<Hash>>, e: E.Event, ghost rows: seq<Row<Hash>>)
      returns (r: seq<Row<Hash>>)
      requires index == Fill(rows)
      ensures r == Fill(rows + E.RowsOf(ix, E.Targets(ix, e), e))
    {
      hide BigEndian, Pow256, Fill, Put, Less, E.EventKey;
      var targets := E.Targets(ix, e);
      r := index;
      assert rows + E.RowsOf(ix, targets[..0], e) == rows;
      for j := 0 to |targets|
        invariant r == Fill(rows + E.RowsOf(ix, targets[..j], e))
      {
        var row := Row(E.EventKey(ix, targets[j], e), e.id);
        ghost var now := rows + E.RowsOf(ix, targets[..j + 1], e);
        assert targets[..j + 1][..j] == targets[..j];
        FillLast(rows + E.RowsOf(ix, targets[..j], e), row);
        assert rows + E.RowsOf(ix, targets[..j], e) + [row] == now;
        r := Put(r, row);
      }
      assert targets[..|targets|] == targets;
    }

    method LoadAddressTransactionLocations(a: Address) returns (locations: seq<AddressLocation>)
      requires Valid()
      ensures locations == AddressLocations(tables, a)
    {
      locations := Scan(tables.addressTxs, AddressKey(a));
      locations := O.SortBy(locations, AddressOrder);
    }

    method LoadMinerBlockLocations(a: Address) returns (locations: seq<MinerLocation>)
      requires Valid()
      ensures locations == MinerLocations(tables, a)
    {
      locations := Scan(tables.minerBlocks, AddressKey(a));
      locations := O.SortBy(locations, MinerOrder);
    }

    /** Walks an event index and fetches each event by its id, checking it on the way. */
    method LoadIndexedEvents(index: seq<Row<Hash>>, prefix: Bytes) returns (result: Result<seq<E.Event>, Integrity>)
      requires Ordered(index)
      ensures result == E.LoadEvents(index, tables.events, prefix)
    {
      hide Less, BigEndian, Get, Within, E.SortEvents, E.Resolve, HashKey;
      var events: seq<E.Event> := [];
      NothingResolved(tables.events, index[..0], prefix);
      for i := 0 to |index|
        invariant E.Resolve(tables.events, Values(Within(index[..i], prefix))) == Ok(events)
      {
        WithinNext(index, i, prefix);
        if Less(index[i].key, prefix) {
          SkippedRow(index[i].key, prefix);
          continue;
        }
        if !(prefix <= index[i].key) {
          NothingLater(index, i, prefix);
          return Ok(E.SortEvents(events));
        }
        var id := index[i].value;
        ResolveNext(tables.events, Values(Within(index[..i], prefix)), id);
        var found := Get(tables.events, HashKey(id));
        if found.None? || !found.value.valid || found.value.id != id {
          WithinPrefix(index, i + 1, prefix);
          ghost var now, all := Values(Within(index[..i + 1], prefix)), Values(Within(index, prefix));
          assert all[..|now|] == now;
          ResolveStops(tables.events, all, |now|);
          return Err(Integrity);
        }
        events := events + [found.value];
      }
      assert index[..|index|] == index;
      result := Ok(E.SortEvents(events));
    }

    static lemma SkippedRow(key: Bytes, prefix: Bytes)
      requires Less(key, prefix)
      ensures !(prefix <= key)
    {
      if prefix <= key {
        PrefixIsNotAbove(prefix, key);
      }
    }

    /** Walks down from the stored tip, comparing each block with what the one above names. */
    method ValidateChainIntegrity() returns (ok: bool)
      ensures ok <==> Intact(tables)
    {
      hide Get, BigEndian;
      if tables.tip.None? {
        return true;
      }
      var (tipHeight, tipHash) := tables.tip.value;
      var blocks := tables.blocks;
      if !Loads(blocks, tipHeight) || At(blocks, tipHeight).header.hash != tipHash {
        return false;
      }
      var expected := tipHash;
      var height := tipHeight + 1;
      while height > 0
        invariant height <= tipHeight + 1
        invariant height > 0 && Loads(blocks, height - 1) ==> At(blocks, height - 1).header.hash == expected
        invariant forall h: nat :: height <= h <= tipHeight ==> Loads(blocks, h) && Joined(blocks, h)
      {
        height := height - 1;
        if !Loads(blocks, height) {
          return false;
        }
        var block := At(blocks, height);
        if block.header.hash != expected {
          return false;
        }
        if height == 0 {
          if block.header.previous != ZERO_HASH {
            assert !Joined(blocks, height);
            return false;
          }
        } else {
          if !Loads(blocks, height - 1) {
            assert !Joined(blocks, height);
            return false;
          }
          if block.header.previous != At(blocks, height - 1).header.hash {
            assert !Joined(blocks, height);
            return false;
          }
          expected := At(blocks, height - 1).header.hash;
        }
        assert Joined(blocks, height);
      }
      return true;
    }

    static ghost predicate EventTables(t: Tables, events: seq<E.Event>) {
      && t.events == Fill(E.IdRows(events))
      && t.blockEvents == Fill(E.IndexRows(E.ByBlock, events))
      && t.txEvents == Fill(E.IndexRows(E.ByTransaction, events))
      && t.addressEvents == Fill(E.IndexRows(E.ByAddress, events))
    }
  }
}

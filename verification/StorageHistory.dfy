/** Address and miner histories: prefix scans of the rebuilt indexes return the saved chain's
    own history, in chain order. */
module StorageHistory {
  import opened Paqus
  import opened ByteTable
  import opened StorageIndex

  function Located(b: Block, i: nat, sent: bool): AddressLocation
    requires i < |b.body.txs|
  {
    AddressLocation(b.body.txs[i].hash, b.header.height, b.header.hash, i, sent, b.body.txs[i].family)
  }

  function AddressRow(a: Address, l: AddressLocation): Row<AddressLocation> {
    Row(AddressTxKey(a, l.height, l.index, l.sent), l)
  }

  function RecipientRows(b: Block, i: nat, recipients: seq<Address>): seq<Row<AddressLocation>>
    requires i < |b.body.txs|
  {
    if recipients == [] then [] else
    var last := recipients[|recipients| - 1];
    RecipientRows(b, i, recipients[..|recipients| - 1]) +
    (if last != b.body.txs[i].signer then [AddressRow(last, Located(b, i, false))] else [])
  }

  /** The signer's row, then a row for every recipient other than the signer. */
  function TxAddressRows(b: Block, i: nat): seq<Row<AddressLocation>>
    requires i < |b.body.txs|
  {
    [AddressRow(b.body.txs[i].signer, Located(b, i, true))] + RecipientRows(b, i, b.body.txs[i].recipients)
  }

  function BlockAddressRows(b: Block, n: nat): seq<Row<AddressLocation>>
    requires n <= |b.body.txs|
  {
    if n == 0 then [] else BlockAddressRows(b, n - 1) + TxAddressRows(b, n - 1)
  }

  function AddressRows(chain: seq<Block>): seq<Row<AddressLocation>> {
    if chain == [] then [] else
    var last := chain[|chain| - 1];
    AddressRows(chain[..|chain| - 1]) + BlockAddressRows(last, |last.body.txs|)
  }

  // The history, read off the chain

  function TxHistory(b: Block, i: nat, a: Address): seq<AddressLocation>
    requires i < |b.body.txs|
  {
    if a == b.body.txs[i].signer then [Located(b, i, true)]
    else if a in b.body.txs[i].recipients then [Located(b, i, false)]
    else []
  }

  function BlockHistory(b: Block, n: nat, a: Address): seq<AddressLocation>
    requires n <= |b.body.txs|
  {
    if n == 0 then [] else BlockHistory(b, n - 1, a) + TxHistory(b, n - 1, a)
  }

  /** One entry per transaction of the chain that concerns `a`, sent if `a` signed it. */
  function History(chain: seq<Block>, a: Address): seq<AddressLocation> {
    if chain == [] then [] else
    var last := chain[|chain| - 1];
    History(chain[..|chain| - 1], a) + BlockHistory(last, |last.body.txs|, a)
  }

  // What the history says

  /** `l` names the transaction at position `l.index` of `b`. */
  ghost predicate Names(b: Block, l: AddressLocation) {
    && l.height == b.header.height && l.blockHash == b.header.hash && l.index < |b.body.txs|
    && l.tx == b.body.txs[l.index].hash && l.family == b.body.txs[l.index].family
  }

  /** `l` is the entry of `a`: sent if `a` signed, received if `a` did not sign and was paid. */
  ghost predicate EntryOf(b: Block, l: AddressLocation, a: Address) {
    && Names(b, l)
    && (l.sent <==> b.body.txs[l.index].signer == a)
    && (!l.sent ==> a in b.body.txs[l.index].recipients)
  }

  /** The transaction was signed by `a` or pays `a`. */
  ghost predicate ConcernedIn(tx: Tx, a: Address) {
    tx.signer == a || a in tx.recipients
  }

  lemma TxHistoryMeans(b: Block, i: nat, a: Address)
    requires i < |b.body.txs|
    ensures forall l :: l in TxHistory(b, i, a) ==> EntryOf(b, l, a) && l.index == i
    ensures ConcernedIn(b.body.txs[i], a) ==> TxHistory(b, i, a) != []
  {
  }

  ghost predicate HasEntry(history: seq<AddressLocation>, i: nat) {
    exists l :: l in history && l.index == i
  }

  lemma EntryStays(before: seq<AddressLocation>, here: seq<AddressLocation>, i: nat)
    requires HasEntry(before, i) || HasEntry(here, i)
    ensures HasEntry(before + here, i)
  {
    if HasEntry(before, i) {
      var l :| l in before && l.index == i;
      assert l in before + here;
    } else {
      var l :| l in here && l.index == i;
      assert l in before + here;
    }
  }

  lemma {:induction false} BlockHistoryMeans(b: Block, n: nat, a: Address)
    requires n <= |b.body.txs|
    ensures forall l :: l in BlockHistory(b, n, a) ==> EntryOf(b, l, a) && l.index < n
    ensures forall i: nat :: i < n && ConcernedIn(b.body.txs[i], a) ==> HasEntry(BlockHistory(b, n, a), i)
  {
    hide EntryOf, ConcernedIn, HasEntry, TxHistory;
    if n > 0 {
      BlockHistoryMeans(b, n - 1, a);
      TxHistoryMeans(b, n - 1, a);
      var before, here := BlockHistory(b, n - 1, a), TxHistory(b, n - 1, a);
      if here != [] { FirstEntry(here, n - 1); }
      forall i: nat | i < n && ConcernedIn(b.body.txs[i], a) ensures HasEntry(before + here, i) {
        EntryStays(before, here, i);
      }
    }
  }

  lemma FirstEntry(here: seq<AddressLocation>, i: nat)
    requires here != [] && here[0].index == i
    ensures HasEntry(here, i)
  {
    assert here[0] in here;
  }

  /** Every entry of an address's history is one of its transactions, at its real place and with the
      right direction; and every transaction the address signed or was paid by has an entry. */
  lemma {:induction false} HistoryMeans(chain: seq<Block>, a: Address)
    ensures forall l :: l in History(chain, a) ==> exists k :: 0 <= k < |chain| && EntryOf(chain[k], l, a)
    ensures forall k, i :: 0 <= k < |chain| && 0 <= i < |chain[k].body.txs| && ConcernedIn(chain[k].body.txs[i], a) ==>
      exists l :: l in History(chain, a) && EntryOf(chain[k], l, a) && l.index == i
  {
    hide EntryOf, ConcernedIn, BlockHistory;
    if chain != [] {
      var before, last := chain[..|chain| - 1], chain[|chain| - 1];
      HistoryMeans(before, a);
      BlockHistoryMeans(last, |last.body.txs|, a);
      var old', here := History(before, a), BlockHistory(last, |last.body.txs|, a);
      assert forall l :: l in old' + here <==> l in old' || l in here;
      forall l | l in old' + here ensures exists k :: 0 <= k < |chain| && EntryOf(chain[k], l, a) {
        if l in old' {
          var k :| 0 <= k < |before| && EntryOf(before[k], l, a);
          assert EntryOf(chain[k], l, a);
        } else {
          assert EntryOf(chain[|chain| - 1], l, a);
        }
      }
      forall k, i | 0 <= k < |chain| && 0 <= i < |chain[k].body.txs| && ConcernedIn(chain[k].body.txs[i], a)
        ensures exists l :: l in old' + here && EntryOf(chain[k], l, a) && l.index == i
      {
        if k < |before| {
          assert before[k] == chain[k];
          var l :| l in old' && EntryOf(before[k], l, a) && l.index == i;
          assert l in old' + here;
        } else {
          assert HasEntry(here, i);
          var l :| l in here && l.index == i;
          assert l in old' + here;
        }
      }
    }
  }

  // Keys

  lemma AddressPrefix(a: Address, x: Address, rest: Bytes)
    requires a < Pow256(ADDRESS_SIZE) && x < Pow256(ADDRESS_SIZE)
    ensures AddressKey(a) <= AddressKey(x) + rest <==> a == x
  {
    assert (AddressKey(x) + rest)[..ADDRESS_SIZE] == AddressKey(x);
    if AddressKey(a) == AddressKey(x) {
      BigEndianInjective(a, x, ADDRESS_SIZE);
    }
  }

  predicate Earlier(l: AddressLocation, height: nat, index: nat) {
    l.height < height || (l.height == height && l.index < index)
  }

  lemma KeyBelow(a: Address, l: AddressLocation, m: AddressLocation)
    requires Earlier(l, m.height, m.index)
    requires m.height < Pow256(8) && m.index < Pow256(4)
    ensures Less(AddressRow(a, l).key, AddressRow(a, m).key)
  {
    hide BigEndian, Pow256, Less;
    var lt, mt := [if l.sent then 1 else 0], [if m.sent then 1 else 0];
    var lr, mr := BigEndian(l.index, 4) + lt, BigEndian(m.index, 4) + mt;
    if l.height < m.height {
      BigEndianOrdered(l.height, m.height, 8);
      LessExtends(HeightKey(l.height), HeightKey(m.height), lr, mr);
    } else {
      BigEndianOrdered(l.index, m.index, 4);
      LessExtends(BigEndian(l.index, 4), BigEndian(m.index, 4), lt, mt);
      LessShared(HeightKey(l.height), lr, mr);
    }
    LessShared(AddressKey(a), HeightKey(l.height) + lr, HeightKey(m.height) + mr);
  }

  // Scans

  function HistoryRows(a: Address, locations: seq<AddressLocation>): seq<Row<AddressLocation>> {
    seq(|locations|, i requires 0 <= i < |locations| => AddressRow(a, locations[i]))
  }

  /** `rows` under the address's prefix give exactly `locations`, all before the given place. */
  ghost predicate Scanned(rows: seq<Row<AddressLocation>>, a: Address, locations: seq<AddressLocation>, height: nat,
      index: nat)
  {
    && Fill(Within(rows, AddressKey(a))) == HistoryRows(a, locations)
    && Ordered(HistoryRows(a, locations))
    && (forall i :: 0 <= i < |locations| ==> Earlier(locations[i], height, index))
    && forall i, j :: 0 <= i < j < |locations| ==> Earlier(locations[i], locations[j].height, locations[j].index)
  }

  lemma {:induction false} FillCopies<V>(before: seq<Row<V>>, copies: seq<Row<V>>, row: Row<V>)
    requires copies != [] && forall i :: 0 <= i < |copies| ==> copies[i] == row
    requires Ordered(Fill(before) + [row])
    ensures Fill(before + copies) == Fill(before) + [row]
    decreases |copies|
  {
    hide Put, Less;
    var rest := copies[..|copies| - 1];
    var all := before + copies;
    assert all[..|all| - 1] == before + rest;
    if rest == [] {
      assert before + rest == before;
      PutLast(Fill(before), row);
    } else {
      FillCopies(before, rest, row);
      PutAgain(Fill(before) + [row], row);
    }
  }

  lemma {:induction false} RecipientsWithin(b: Block, i: nat, recipients: seq<Address>, a: Address)
    requires i < |b.body.txs| && a < Pow256(ADDRESS_SIZE)
    requires forall j :: 0 <= j < |recipients| ==> recipients[j] < Pow256(ADDRESS_SIZE)
    ensures
      var inside := Within(RecipientRows(b, i, recipients), AddressKey(a));
      && (forall j :: 0 <= j < |inside| ==> inside[j] == AddressRow(a, Located(b, i, false)))
      && (inside == [] <==> a == b.body.txs[i].signer || a !in recipients)
  {
    hide Pow256, BigEndian, AddressRow, Within;
    if recipients == [] {
      NoneWithin<AddressLocation>([], AddressKey(a));
    } else {
      var before, last := recipients[..|recipients| - 1], recipients[|recipients| - 1];
      RecipientsWithin(b, i, before, a);
      assert recipients == before + [last];
      if last != b.body.txs[i].signer {
        OneWithin(a, last, Located(b, i, false));
        WithinJoins(RecipientRows(b, i, before), [AddressRow(last, Located(b, i, false))], AddressKey(a));
      } else {
        assert RecipientRows(b, i, recipients) == RecipientRows(b, i, before);
      }
    }
  }

  lemma OneWithin(a: Address, x: Address, l: AddressLocation)
    requires a < Pow256(ADDRESS_SIZE) && x < Pow256(ADDRESS_SIZE)
    ensures Within([AddressRow(x, l)], AddressKey(a)) == if a == x then [AddressRow(a, l)] else []
  {
    AddressPrefix(a, x, HeightKey(l.height) + (BigEndian(l.index, 4) + [if l.sent then 1 else 0]));
    assert Within([AddressRow(x, l)][..0], AddressKey(a)) == [];
  }

  lemma TxWithin(b: Block, i: nat, a: Address)
    requires i < |b.body.txs| && a < Pow256(ADDRESS_SIZE) && SizedTx(b.body.txs[i])
    ensures
      var inside, history := Within(TxAddressRows(b, i), AddressKey(a)), TxHistory(b, i, a);
      && (history == [] ==> inside == [])
      && (history != [] ==> inside != [] && forall j :: 0 <= j < |inside| ==> inside[j] == AddressRow(a, history[0]))
  {
    hide Pow256, BigEndian, AddressTxKey;
    var tx := b.body.txs[i];
    RecipientsWithin(b, i, tx.recipients, a);
    OneWithin(a, tx.signer, Located(b, i, true));
    WithinJoins([AddressRow(tx.signer, Located(b, i, true))], RecipientRows(b, i, tx.recipients), AddressKey(a));
  }

  lemma HistoryGrows(a: Address, locations: seq<AddressLocation>, l: AddressLocation)
    requires Ordered(HistoryRows(a, locations))
    requires forall i :: 0 <= i < |locations| ==> Earlier(locations[i], l.height, l.index)
    requires l.height < Pow256(8) && l.index < Pow256(4)
    ensures HistoryRows(a, locations + [l]) == HistoryRows(a, locations) + [AddressRow(a, l)]
    ensures Ordered(HistoryRows(a, locations) + [AddressRow(a, l)])
  {
    hide Pow256, BigEndian, AddressTxKey, Less;
    forall i | 0 <= i < |locations|
      ensures Less(AddressRow(a, locations[i]).key, AddressRow(a, l).key)
    {
      KeyBelow(a, locations[i], l);
    }
  }

  lemma TxScanned(rows: seq<Row<AddressLocation>>, a: Address, locations: seq<AddressLocation>, b: Block, i: nat)
    requires i < |b.body.txs| && Sized(b) && a < Pow256(ADDRESS_SIZE)
    requires Scanned(rows, a, locations, b.header.height, i)
    ensures Scanned(rows + TxAddressRows(b, i), a, locations + TxHistory(b, i, a), b.header.height, i + 1)
  {
    hide Pow256, BigEndian, AddressTxKey, Less, Fill, Within, TxAddressRows;
    TxWithin(b, i, a);
    WithinJoins(rows, TxAddressRows(b, i), AddressKey(a));
    var inside := Within(rows, AddressKey(a));
    if TxHistory(b, i, a) == [] {
      assert inside + [] == inside && locations + [] == locations;
    } else {
      var l := TxHistory(b, i, a)[0];
      assert TxHistory(b, i, a) == [l];
      HistoryGrows(a, locations, l);
      FillCopies(inside, Within(TxAddressRows(b, i), AddressKey(a)), AddressRow(a, l));
    }
  }

  lemma {:induction false} BlockScanned(rows: seq<Row<AddressLocation>>, a: Address, locations: seq<AddressLocation>,
      b: Block, n: nat)
    requires n <= |b.body.txs| && Sized(b) && a < Pow256(ADDRESS_SIZE)
    requires Scanned(rows, a, locations, b.header.height, 0)
    ensures Scanned(rows + BlockAddressRows(b, n), a, locations + BlockHistory(b, n, a), b.header.height, n)
  {
    hide Scanned, TxAddressRows, TxHistory, Pow256;
    if n == 0 {
      assert rows + [] == rows && locations + [] == locations;
    } else {
      BlockScanned(rows, a, locations, b, n - 1);
      TxScanned(rows + BlockAddressRows(b, n - 1), a, locations + BlockHistory(b, n - 1, a), b, n - 1);
      assert rows + BlockAddressRows(b, n) == rows + BlockAddressRows(b, n - 1) + TxAddressRows(b, n - 1);
      assert locations + BlockHistory(b, n, a) == locations + BlockHistory(b, n - 1, a) + TxHistory(b, n - 1, a);
    }
  }

  lemma {:induction false} ChainScanned(chain: seq<Block>, a: Address, height: nat)
    requires Stacked(chain) && a < Pow256(ADDRESS_SIZE)
    requires chain != [] ==> chain[|chain| - 1].header.height < height
    ensures Scanned(AddressRows(chain), a, History(chain, a), height, 0)
  {
    hide Pow256, Put, Less;
    if chain != [] {
      var before, last := chain[..|chain| - 1], chain[|chain| - 1];
      ChainScanned(before, a, last.header.height);
      BlockScanned(AddressRows(before), a, History(before, a), last, |last.body.txs|);
    }
  }

  /** Scanning the rebuilt index under an address returns the chain's history of it. */
  lemma AddressHistory(chain: seq<Block>, a: Address)
    requires Stacked(chain) && a < Pow256(ADDRESS_SIZE)
    ensures Values(Within(Fill(AddressRows(chain)), AddressKey(a))) == History(chain, a)
    ensures forall i, j :: 0 <= i < j < |History(chain, a)| ==>
      Earlier(History(chain, a)[i], History(chain, a)[j].height, History(chain, a)[j].index)
  {
    hide Pow256, BigEndian, Fill, Within, History, AddressRows;
    ChainScanned(chain, a, if chain == [] then 0 else chain[|chain| - 1].header.height + 1);
    FillWithin(AddressRows(chain), AddressKey(a));
  }

  // Blocks by miner

  function MinerRow(b: Block): Row<MinerLocation> {
    Row(MinerBlockKey(b.header.miner, b.header.height), MinerLocation(b.header.height, b.header.hash))
  }

  function BlockMinerRows(b: Block): seq<Row<MinerLocation>> {
    if b.body.coinbase.None? then [] else [MinerRow(b)]
  }

  function MinerRows(chain: seq<Block>): seq<Row<MinerLocation>> {
    if chain == [] then [] else MinerRows(chain[..|chain| - 1]) + BlockMinerRows(chain[|chain| - 1])
  }

  /** The blocks of the chain that pay a coinbase and were mined by `a`. */
  function Mined(chain: seq<Block>, a: Address): seq<MinerLocation> {
    if chain == [] then [] else
    var last := chain[|chain| - 1];
    Mined(chain[..|chain| - 1], a) +
    (if last.body.coinbase.Some? && last.header.miner == a
     then [MinerLocation(last.header.height, last.header.hash)] else [])
  }

  /** A miner's blocks are exactly the blocks of the chain that pay a coinbase and name the miner, each
      by its own height and hash. */
  lemma {:induction false} MinedMeans(chain: seq<Block>, a: Address)
    ensures forall l :: l in Mined(chain, a) <==>
      exists k :: 0 <= k < |chain| && MinedBy(chain[k], l, a)
  {
    if chain != [] {
      var before, last := chain[..|chain| - 1], chain[|chain| - 1];
      MinedMeans(before, a);
      forall l | l in Mined(chain, a) ensures exists k :: 0 <= k < |chain| && MinedBy(chain[k], l, a) {
        if l in Mined(before, a) {
          var k :| 0 <= k < |before| && MinedBy(before[k], l, a);
          assert MinedBy(chain[k], l, a);
        } else {
          assert MinedBy(chain[|chain| - 1], l, a);
        }
      }
      forall l | exists k :: 0 <= k < |chain| && MinedBy(chain[k], l, a) ensures l in Mined(chain, a) {
        var k :| 0 <= k < |chain| && MinedBy(chain[k], l, a);
        if k < |before| { assert MinedBy(before[k], l, a); }
      }
    }
  }

  ghost predicate MinedBy(b: Block, l: MinerLocation, a: Address) {
    b.body.coinbase.Some? && b.header.miner == a && l.height == b.header.height && l.blockHash == b.header.hash
  }

  function MinedRows(a: Address, locations: seq<MinerLocation>): seq<Row<MinerLocation>> {
    seq(|locations|, i requires 0 <= i < |locations| => Row(MinerBlockKey(a, locations[i].height), locations[i]))
  }

  lemma MinedGrows(a: Address, locations: seq<MinerLocation>, l: MinerLocation)
    requires Ordered(MinedRows(a, locations)) && l.height < Pow256(8)
    requires forall i :: 0 <= i < |locations| ==> locations[i].height < l.height
    ensures MinedRows(a, locations + [l]) == MinedRows(a, locations) + [Row(MinerBlockKey(a, l.height), l)]
    ensures Ordered(MinedRows(a, locations + [l]))
  {
    hide Pow256, BigEndian, Less;
    forall i | 0 <= i < |locations|
      ensures Less(MinerBlockKey(a, locations[i].height), MinerBlockKey(a, l.height))
    {
      BigEndianOrdered(locations[i].height, l.height, 8);
      LessShared(AddressKey(a), HeightKey(locations[i].height), HeightKey(l.height));
    }
  }

  lemma MinerWithin(b: Block, a: Address)
    requires Sized(b) && a < Pow256(ADDRESS_SIZE)
    ensures Within(BlockMinerRows(b), AddressKey(a)) ==
      if b.body.coinbase.Some? && b.header.miner == a then [MinerRow(b)] else []
  {
    AddressPrefix(a, b.header.miner, HeightKey(b.header.height));
    assert Within([MinerRow(b)][..0], AddressKey(a)) == [];
  }

  ghost predicate MinerScanned(rows: seq<Row<MinerLocation>>, a: Address, locations: seq<MinerLocation>, height: nat) {
    && Fill(Within(rows, AddressKey(a))) == MinedRows(a, locations)
    && Ordered(MinedRows(a, locations))
    && forall i :: 0 <= i < |locations| ==> locations[i].height < height
  }

  lemma BlockMinerScanned(rows: seq<Row<MinerLocation>>, a: Address, before: seq<Block>, b: Block, height: nat)
    requires Sized(b) && a < Pow256(ADDRESS_SIZE) && b.header.height < height
    requires MinerScanned(rows, a, Mined(before, a), b.header.height)
    ensures MinerScanned(rows + BlockMinerRows(b), a, Mined(before + [b], a), height)
  {
    hide Pow256, BigEndian, Less, Put, Fill, Within, BlockMinerRows;
    var inside := Within(rows, AddressKey(a));
    WithinJoins(rows, BlockMinerRows(b), AddressKey(a));
    MinerWithin(b, a);
    assert (before + [b])[..|before|] == before;
    if b.body.coinbase.Some? && b.header.miner == a {
      MinedGrows(a, Mined(before, a), MinerRow(b).value);
      FillCopies(inside, [MinerRow(b)], MinerRow(b));
    } else {
      assert inside + [] == inside && Mined(before + [b], a) == Mined(before, a);
    }
  }

  lemma {:induction false} MinersScanned(chain: seq<Block>, a: Address, height: nat)
    requires Stacked(chain) && a < Pow256(ADDRESS_SIZE)
    requires chain != [] ==> chain[|chain| - 1].header.height < height
    ensures MinerScanned(MinerRows(chain), a, Mined(chain, a), height)
  {
    hide Pow256, Put, Less;
    if chain != [] {
      var before, last := chain[..|chain| - 1], chain[|chain| - 1];
      MinersScanned(before, a, last.header.height);
      BlockMinerScanned(MinerRows(before), a, before, last, height);
      assert before + [last] == chain;
    }
  }

  /** Scanning the rebuilt index under a miner returns the chain's blocks of that miner. */
  lemma MinerHistory(chain: seq<Block>, a: Address)
    requires Stacked(chain) && a < Pow256(ADDRESS_SIZE)
    ensures Values(Within(Fill(MinerRows(chain)), AddressKey(a))) == Mined(chain, a)
    ensures forall i, j :: 0 <= i < j < |Mined(chain, a)| ==> Mined(chain, a)[i].height < Mined(chain, a)[j].height
  {
    hide Pow256, BigEndian, Fill, Within, Mined, MinerRows;
    MinersScanned(chain, a, if chain == [] then 0 else chain[|chain| - 1].header.height + 1);
    FillWithin(MinerRows(chain), AddressKey(a));
    MinedAscends(chain, a);
  }

  lemma {:induction false} MinedAscends(chain: seq<Block>, a: Address)
    requires Stacked(chain)
    ensures forall i, j :: 0 <= i < j < |Mined(chain, a)| ==> Mined(chain, a)[i].height < Mined(chain, a)[j].height
    ensures forall i :: 0 <= i < |Mined(chain, a)| ==> Mined(chain, a)[i].height <= chain[|chain| - 1].header.height
  {
    if chain != [] {
      MinedAscends(chain[..|chain| - 1], a);
    }
  }
}

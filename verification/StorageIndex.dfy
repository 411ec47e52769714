/** The canonical indexes that saving a ledger rebuilds, and what reading them back yields. */
module StorageIndex {
  import opened Paqus
  import opened ByteTable

  /** Widths of addresses and hashes in bytes, fixed by the consensus crate. */
  const ADDRESS_SIZE: nat
  const HASH_SIZE: nat

  datatype TxLocation = TxLocation(height: nat, blockHash: Hash, index: nat, family: Family)

  datatype AddressLocation = AddressLocation(
    tx: Hash, height: nat, blockHash: Hash, index: nat, sent: bool, family: Family)

  datatype MinerLocation = MinerLocation(height: nat, blockHash: Hash)

  function AddressKey(a: Address): Bytes {
    BigEndian(a, ADDRESS_SIZE)
  }

  function HashKey(h: Hash): Bytes {
    BigEndian(h, HASH_SIZE)
  }

  function HeightKey(height: nat): Bytes {
    BigEndian(height, 8)
  }

  function AddressTxKey(a: Address, height: nat, index: nat, sent: bool): Bytes {
    AddressKey(a) + (HeightKey(height) + (BigEndian(index, 4) + [if sent then 1 else 0]))
  }

  function MinerBlockKey(a: Address, height: nat): Bytes {
    AddressKey(a) + HeightKey(height)
  }

  /** What the fixed-width types of the source guarantee about a block. */
  ghost predicate SizedTx(tx: Tx) {
    && tx.hash < Pow256(HASH_SIZE) && tx.signer < Pow256(ADDRESS_SIZE)
    && forall i :: 0 <= i < |tx.recipients| ==> tx.recipients[i] < Pow256(ADDRESS_SIZE)
  }

  ghost predicate Sized(b: Block) {
    && b.header.height < Pow256(8) && b.header.hash < Pow256(HASH_SIZE)
    && b.header.miner < Pow256(ADDRESS_SIZE) && |b.body.txs| <= Pow256(4)
    && forall i :: 0 <= i < |b.body.txs| ==> SizedTx(b.body.txs[i])
  }

  /** A chain as the ledger holds it: one block per height, in order of height. */
  ghost predicate Stacked(chain: seq<Block>) {
    && (forall i :: 0 <= i < |chain| ==> Sized(chain[i]))
    && forall i, j :: 0 <= i < j < |chain| ==> chain[i].header.height < chain[j].header.height
  }

  // Blocks by height

  function BlockRow(b: Block): Row<Block> {
    Row(HeightKey(b.header.height), b)
  }

  function BlockRows(chain: seq<Block>): seq<Row<Block>> {
    if chain == [] then [] else BlockRows(chain[..|chain| - 1]) + [BlockRow(chain[|chain| - 1])]
  }

  lemma {:induction false} BlockByHeight(chain: seq<Block>, k: nat)
    requires Stacked(chain) && k < |chain|
    ensures Get(Fill(BlockRows(chain)), HeightKey(chain[k].header.height)) == Some(chain[k])
  {
    var before, last := chain[..|chain| - 1], chain[|chain| - 1];
    var rows := BlockRows(chain);
    assert rows[..|rows| - 1] == BlockRows(before);
    GetAfterPut(Fill(BlockRows(before)), BlockRow(last), HeightKey(chain[k].header.height));
    if k < |before| {
      BigEndianOrdered(chain[k].header.height, last.header.height, 8);
      LessIsTotal(HeightKey(last.header.height), HeightKey(last.header.height));
      BlockByHeight(before, k);
    }
  }

  // Transactions by hash

  function TxRow(b: Block, i: nat): Row<TxLocation>
    requires i < |b.body.txs|
  {
    var tx := b.body.txs[i];
    Row(HashKey(tx.hash), TxLocation(b.header.height, b.header.hash, i, tx.family))
  }

  function BlockTxRows(b: Block, n: nat): seq<Row<TxLocation>>
    requires n <= |b.body.txs|
  {
    if n == 0 then [] else BlockTxRows(b, n - 1) + [TxRow(b, n - 1)]
  }

  function TxRows(chain: seq<Block>): seq<Row<TxLocation>> {
    if chain == [] then [] else
    var last := chain[|chain| - 1];
    TxRows(chain[..|chain| - 1]) + BlockTxRows(last, |last.body.txs|)
  }

  /** Where among the first `n` transactions of `b` a hash occurs last, or else `otherwise`. */
  function LastInBlock(b: Block, n: nat, hash: Hash, otherwise: Option<(TxLocation, Tx)>): Option<(TxLocation, Tx)>
    requires n <= |b.body.txs|
  {
    if n == 0 then otherwise
    else if b.body.txs[n - 1].hash == hash then Some((TxRow(b, n - 1).value, b.body.txs[n - 1]))
    else LastInBlock(b, n - 1, hash, otherwise)
  }

  /** The last transaction of the chain with a given hash, and its place. */
  function LastInChain(chain: seq<Block>, hash: Hash): Option<(TxLocation, Tx)> {
    if chain == [] then None else
    var last := chain[|chain| - 1];
    LastInBlock(last, |last.body.txs|, hash, LastInChain(chain[..|chain| - 1], hash))
  }

  function Place(found: Option<(TxLocation, Tx)>): Option<TxLocation> {
    if found.Some? then Some(found.value.0) else None
  }

  lemma {:induction false} BlockTxLookup(rows: seq<Row<TxLocation>>, b: Block, n: nat, hash: Hash,
      otherwise: Option<(TxLocation, Tx)>)
    requires n <= |b.body.txs| && Sized(b) && hash < Pow256(HASH_SIZE)
    requires Get(Fill(rows), HashKey(hash)) == Place(otherwise)
    ensures Get(Fill(rows + BlockTxRows(b, n)), HashKey(hash)) == Place(LastInBlock(b, n, hash, otherwise))
  {
    hide Pow256, BigEndian, Put, Get;
    if n == 0 {
      assert rows + BlockTxRows(b, n) == rows;
    } else {
      BlockTxLookup(rows, b, n - 1, hash, otherwise);
      var all := rows + BlockTxRows(b, n);
      assert all[..|all| - 1] == rows + BlockTxRows(b, n - 1);
      GetAfterPut(Fill(all[..|all| - 1]), TxRow(b, n - 1), HashKey(hash));
      if HashKey(b.body.txs[n - 1].hash) == HashKey(hash) {
        assert SizedTx(b.body.txs[n - 1]);
        BigEndianInjective(b.body.txs[n - 1].hash, hash, HASH_SIZE);
      }
    }
  }

  /** The transaction index answers as a backward search through the saved chain. */
  lemma {:induction false} TxLookup(chain: seq<Block>, hash: Hash)
    requires Stacked(chain) && hash < Pow256(HASH_SIZE)
    ensures Get(Fill(TxRows(chain)), HashKey(hash)) == Place(LastInChain(chain, hash))
  {
    if chain != [] {
      var before, last := chain[..|chain| - 1], chain[|chain| - 1];
      TxLookup(before, hash);
      BlockTxLookup(TxRows(before), last, |last.body.txs|, hash, LastInChain(before, hash));
    }
  }

  ghost predicate Holds(chain: seq<Block>, k: nat, l: TxLocation, tx: Tx) {
    && k < |chain| && l.index < |chain[k].body.txs|
    && tx == chain[k].body.txs[l.index]
    && l == TxLocation(chain[k].header.height, chain[k].header.hash, l.index, tx.family)
  }

  lemma {:induction false} LastInBlockFinds(b: Block, n: nat, hash: Hash, otherwise: Option<(TxLocation, Tx)>)
    requires n <= |b.body.txs|
    ensures
      var found := LastInBlock(b, n, hash, otherwise);
      if forall i :: 0 <= i < n ==> b.body.txs[i].hash != hash then found == otherwise
      else found.Some? && found.value.1.hash == hash && Holds([b], 0, found.value.0, found.value.1)
  {
    if n > 0 {
      LastInBlockFinds(b, n - 1, hash, otherwise);
    }
  }

  /** A hash is found exactly when some block of the chain carries it, and then what is found is
      a transaction with that hash at the place reported. */
  lemma {:induction false} LastInChainFinds(chain: seq<Block>, hash: Hash)
    ensures LastInChain(chain, hash).None? <==> forall k :: 0 <= k < |chain| ==> !Carries(chain[k], hash)
    ensures LastInChain(chain, hash).Some? ==>
      var (l, tx) := LastInChain(chain, hash).value;
      tx.hash == hash && exists k: nat :: Holds(chain, k, l, tx)
  {
    if chain != [] {
      var before, last := chain[..|chain| - 1], chain[|chain| - 1];
      LastInChainFinds(before, hash);
      LastInBlockFinds(last, |last.body.txs|, hash, LastInChain(before, hash));
      assert forall k :: 0 <= k < |before| ==> chain[k] == before[k];
      if LastInChain(chain, hash).Some? {
        var (l, tx) := LastInChain(chain, hash).value;
        if Carries(last, hash) {
          assert Holds(chain, |chain| - 1, l, tx);
        } else {
          var k: nat :| Holds(before, k, l, tx);
          assert Holds(chain, k, l, tx);
        }
      }
    }
  }

  datatype Integrity = Integrity

  /** Loads a transaction: its location, the block at that height, the position in the block,
      with every stored fact checked against the others. */
  function LoadTransaction(blocks: seq<Row<Block>>, txs: seq<Row<TxLocation>>, hash: Hash)
    : Result<Option<(TxLocation, Tx)>, Integrity>
  {
    match Get(txs, HashKey(hash))
    case None => Ok(None)
    case Some(l) =>
      match Get(blocks, HeightKey(l.height))
      case None => Err(Integrity)
      case Some(b) =>
        if b.header.height != l.height || b.header.hash != l.blockHash || l.index >= |b.body.txs| then Err(Integrity)
        else
          var tx := b.body.txs[l.index];
          if tx.hash != hash || tx.family != l.family then Err(Integrity) else Ok(Some((l, tx)))
  }

  /** After a save, loading by hash never fails and returns what searching the chain returns. */
  lemma LoadTransactionFinds(chain: seq<Block>, hash: Hash)
    requires Stacked(chain) && hash < Pow256(HASH_SIZE)
    ensures LoadTransaction(Fill(BlockRows(chain)), Fill(TxRows(chain)), hash) == Ok(LastInChain(chain, hash))
  {
    TxLookup(chain, hash);
    LastInChainFinds(chain, hash);
    if LastInChain(chain, hash).Some? {
      var (l, tx) := LastInChain(chain, hash).value;
      var k: nat :| Holds(chain, k, l, tx);
      BlockByHeight(chain, k);
    }
  }
}

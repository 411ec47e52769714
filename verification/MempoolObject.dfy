/** The pool as the node holds it: an object whose methods update the indexes in place. Each
    method's effect on the whole object is the corresponding function of module `Mempool`. */
module MempoolObject {
  import opened Paqus
  import opened Ordering
  import M = Mempool
  import Selection = BlockSelection

  class Mempool {
    var transactions: map<Hash, Tx>
    var bySignerState: map<(Address, Hash), Hash>
    var reservedCoins: map<Coin, Hash>
    var insertedAt: map<Hash, nat>
    var totalBytes: nat
    const config: M.Config

    function Contents(): M.Pool
      reads this
    {
      M.Pool(transactions, bySignerState, reservedCoins, insertedAt, totalBytes, config)
    }

    constructor (config: M.Config)
      ensures Contents() == M.Empty(config)
      ensures config.maxBytes < U64_MAX ==> M.Consistent(Contents())
    {
      transactions := map[];
      bySignerState := map[];
      reservedCoins := map[];
      insertedAt := map[];
      totalBytes := 0;
      this.config := config;
    }

    method Remove(hash: Hash) returns (removed: Option<Tx>)
      modifies this
      ensures Contents() == M.Remove(old(Contents()), hash)
      ensures removed == if hash in old(transactions) then Some(old(transactions)[hash]) else None
      ensures old(M.Consistent(Contents())) ==> M.Consistent(Contents())
    {
      hide M.Consistent;
      if old(M.Consistent(Contents())) { M.RemoveKeepsConsistent(Contents(), hash); }
      if hash !in transactions {
        return None;
      }
      var tx := transactions[hash];
      transactions := transactions - {hash};
      insertedAt := insertedAt - {hash};
      totalBytes := SaturatingSub(totalBytes, tx.size);
      bySignerState := bySignerState - {M.SignerState(tx)};
      ReleaseCoins(hash, tx.coins);
      removed := Some(tx);
    }

    method ReleaseCoins(hash: Hash, coins: seq<Coin>)
      modifies this`reservedCoins
      ensures reservedCoins == old(reservedCoins - M.OwnedCoins(Contents(), hash, coins))
    {
      ghost var begin := Contents();
      var i := 0;
      while i < |coins|
        invariant 0 <= i <= |coins|
        invariant reservedCoins == begin.reserved - M.OwnedCoins(begin, hash, coins[..i])
      {
        assert coins[..i + 1] == coins[..i] + [coins[i]];
        if coins[i] in reservedCoins && reservedCoins[coins[i]] == hash {
          reservedCoins := reservedCoins - {coins[i]};
        }
        i := i + 1;
      }
      assert coins[..i] == coins;
    }

    method ReserveCoins(hash: Hash, coins: seq<Coin>)
      modifies this`reservedCoins
      ensures reservedCoins == M.ReserveCoins(old(reservedCoins), coins, hash)
    {
      var i := 0;
      while i < |coins|
        invariant 0 <= i <= |coins|
        invariant reservedCoins == M.ReserveCoins(old(reservedCoins), coins[..i], hash)
      {
        assert coins[..i + 1] == coins[..i] + [coins[i]];
        reservedCoins := reservedCoins[coins[i] := hash];
        i := i + 1;
      }
      assert coins[..i] == coins;
    }

    method EvictForCapacity(incoming: Tx) returns (error: Option<M.PoolError>)
      modifies this
      ensures (Contents(), error) == M.Evict(old(Contents()), M.Rate(incoming), incoming.size)
      ensures old(M.Consistent(Contents())) ==> M.Consistent(Contents())
    {
      var rate := M.Rate(incoming);
      error := None;
      while |transactions| >= config.maxTransactions
        || SaturatingAdd(totalBytes, incoming.size) > config.maxBytes
        invariant M.Evict(Contents(), rate, incoming.size) == M.Evict(old(Contents()), rate, incoming.size)
        invariant old(M.Consistent(Contents())) ==> M.Consistent(Contents())
        decreases |transactions|
      {
        var victim := M.LowestFeeCandidate(Contents());
        if victim.None? {
          return Some(M.MempoolFull);
        }
        if rate <= M.Rate(transactions[victim.value]) {
          return Some(M.FeeTooLow);
        }
        ghost var before := transactions;
        var _ := Remove(victim.value);
        assert transactions.Keys == before.Keys - {victim.value};
      }
    }

    /** Admission. Either outcome leaves the indexes in agreement; on success the pool gained the
        transaction, on failure it lost at most some entries paying less than it. */
    method InsertValidated(r: Rules, ledger: Ledger, tx: Tx, now: nat)
      returns (result: Result<Hash, M.PoolError>)
      modifies this
      ensures (Contents(), result) == M.Insert(r, old(Contents()), ledger, tx, now)
      ensures old(M.Consistent(Contents())) ==> M.Consistent(Contents())
      ensures result.Ok? ==> tx.hash in transactions && transactions[tx.hash] == tx
      ensures result.Err? ==> transactions.Keys <= old(transactions).Keys
    {
      hide M.Consistent, M.PendingOrder, M.ApplyAll, M.Evict, M.ReserveCoins, M.CoinTaken, M.Rate, M.Admit;
      M.InsertTouchesOne(r, Contents(), ledger, tx, now);
      if old(M.Consistent(Contents())) { M.InsertKeepsConsistent(r, Contents(), ledger, tx, now); }
      if tx.size > config.maxBytes {
        return Err(M.MempoolFull);
      }
      if tx.minerOutputs > 1 {
        return Err(M.DuplicateBlockMinerFeeOutput);
      }
      var signerState := M.SignerState(tx);
      if tx.hash in transactions || signerState in bySignerState {
        return Err(M.DuplicateTransaction);
      }
      var error := EvictForCapacity(tx);
      if error.Some? {
        return Err(error.value);
      }
      var taken := CoinReserved(tx);
      if taken {
        return Err(M.CashCoinReserved);
      }
      var replays := PendingReplays(r, ledger, tx);
      if !replays {
        return Err(M.LedgerRefused);
      }
      Admit(tx, now);
      result := Ok(tx.hash);
    }

    /** Enters an accepted transaction into all indexes. */
    method Admit(tx: Tx, now: nat)
      modifies this
      ensures Contents() == M.Admit(old(Contents()), tx, now)
    {
      ReserveCoins(tx.hash, tx.coins);
      bySignerState := bySignerState[M.SignerState(tx) := tx.hash];
      transactions := transactions[tx.hash := tx];
      insertedAt := insertedAt[tx.hash := now];
      totalBytes := SaturatingAdd(totalBytes, tx.size);
    }

    method CoinReserved(tx: Tx) returns (taken: bool)
      ensures taken == M.CoinTaken(Contents(), tx)
    {
      taken := false;
      var i := 0;
      while i < |tx.coins|
        invariant 0 <= i <= |tx.coins|
        invariant forall j :: 0 <= j < i ==> tx.coins[j] !in reservedCoins
      {
        if tx.coins[i] in reservedCoins {
          return true;
        }
        i := i + 1;
      }
    }

    method PendingReplays(r: Rules, ledger: Ledger, tx: Tx) returns (ok: bool)
      ensures ok == M.ApplyAll(r, ledger.state,
        M.PendingOrder(transactions[tx.hash := tx]), M.NextHeight(ledger)).Some?
    {
      var pending := M.PendingOrder(transactions[tx.hash := tx]);
      var height := M.NextHeight(ledger);
      var staged := ledger.state;
      var i := 0;
      while i < |pending|
        invariant 0 <= i <= |pending|
        invariant M.ApplyAll(r, staged, pending[i..], height) == M.ApplyAll(r, ledger.state, pending, height)
      {
        assert pending[i..][1..] == pending[i + 1..];
        var next := r.applyTx(staged, pending[i], height);
        if next.None? {
          return false;
        }
        staged := next.value;
        i := i + 1;
      }
      ok := true;
    }

    method RemoveEach(hashes: seq<Hash>)
      modifies this
      ensures Contents() == M.RemoveAll(old(Contents()), hashes)
      ensures old(M.Consistent(Contents())) ==> M.Consistent(Contents())
    {
      var i := 0;
      while i < |hashes|
        invariant 0 <= i <= |hashes|
        invariant M.RemoveAll(Contents(), hashes[i..]) == M.RemoveAll(old(Contents()), hashes)
        invariant old(M.Consistent(Contents())) ==> M.Consistent(Contents())
      {
        assert hashes[i..][1..] == hashes[i + 1..];
        var _ := Remove(hashes[i]);
        i := i + 1;
      }
    }

    method EvictByPolicy(now: nat)
      modifies this
      ensures Contents() == M.Expire(old(Contents()), now)
      ensures transactions == map h |
        && h in old(transactions)
        && (config.ttlSecs == 0 || !M.Expired(old(Contents()), h, now)) :: old(transactions)[h]
      ensures old(M.Consistent(Contents())) ==> M.Consistent(Contents())
    {
      M.ExpireExact(Contents(), now);
      if config.ttlSecs == 0 {
        return;
      }
      RemoveEach(M.ExpiredHashes(Contents(), now));
    }

    method RemoveConfirmed(block: Block)
      modifies this
      ensures Contents() == M.ConfirmAll(old(Contents()), block)
      ensures transactions == map h | h in old(transactions) && !Carries(block, h) :: old(transactions)[h]
      ensures old(M.Consistent(Contents())) ==> M.Consistent(Contents())
    {
      M.ConfirmExact(Contents(), block);
      RemoveEach(M.ConfirmedHashes(block));
    }

    /** Fills `block` from the pool: `chosen` is what the pool offers, best paying first, and of it
        everything is appended that fits where it is reached. */
    method AppendSelectedToBlock(r: Rules, ledger: Ledger, block: Block, transactionLimit: nat, minRate: nat)
      returns (filled: Block, ghost chosen: seq<Tx>)
      ensures Selection.Keyed(transactions) ==>
        Selection.Chosen(r, transactions, ledger.state, block.header.height,
          SaturatingSub(transactionLimit, |block.body.txs|), minRate, chosen)
      ensures filled.body == block.body.(txs := block.body.txs + Selection.Packed(r, block.body, chosen))
      ensures Selection.Subsequence(Selection.Packed(r, block.body, chosen), chosen)
      ensures Selection.Refreshed(r, filled)
      ensures Selection.Fits(r, block.body) ==> Selection.Fits(r, filled.body)
    {
      var room := SaturatingSub(transactionLimit, |block.body.txs|);
      var offered := Selection.SelectForBlock(r, transactions, ledger.state, block.header.height, room, minRate);
      filled := Selection.AppendSelected(r, block, offered);
      chosen := offered;
      Selection.PackedIsSubsequence(r, block.body, chosen);
    }
  }
}

/** The transaction pool: admission, eviction and removal over five indexes that must agree. */
module Mempool {
  import opened Paqus
  import opened Ordering

  datatype Config = Config(
    maxTransactions: nat,
    maxBytes: nat,
    ttlSecs: nat,
    minRelayFee: nat,
    marketFee: nat)

  datatype PoolError =
    | MempoolFull
    | FeeTooLow
    | DuplicateTransaction
    | DuplicateBlockMinerFeeOutput
    | CashCoinReserved
    | LedgerRefused

  datatype Pool = Pool(
    txs: map<Hash, Tx>,
    bySignerState: map<(Address, Hash), Hash>,
    reserved: map<Coin, Hash>,
    insertedAt: map<Hash, nat>,
    totalBytes: nat,
    config: Config)

  function Empty(config: Config): Pool {
    Pool(map[], map[], map[], map[], 0, config)
  }

  function FeeRate(fee: nat, virtualSize: nat): nat {
    if virtualSize == 0 then U64_MAX else Min(fee, U64_MAX) / virtualSize
  }

  function Rate(tx: Tx): nat {
    FeeRate(tx.bounty, tx.virtualSize)
  }

  /** The rate is the most whole units per virtual byte that the bounty, capped at the machine word,
      covers; a transaction of no size outbids all. */
  lemma RateIsFloor(tx: Tx)
    ensures tx.virtualSize > 0 ==>
      var paid := Min(tx.bounty, U64_MAX);
      Rate(tx) * tx.virtualSize <= paid < (Rate(tx) + 1) * tx.virtualSize
    ensures tx.virtualSize == 0 ==> Rate(tx) == U64_MAX
    ensures Rate(tx) <= U64_MAX
  {
    if tx.virtualSize > 0 {
      QuotientBounds(Min(tx.bounty, U64_MAX), tx.virtualSize);
    }
  }

  lemma QuotientBounds(a: nat, d: nat)
    requires d > 0
    ensures (a / d) * d <= a < (a / d + 1) * d && a / d <= a
  {
    var q, rem := a / d, a % d;
    assert a == q * d + rem;
    NextMultiple(q, d);
  }

  lemma NextMultiple(q: nat, d: nat)
    requires d > 0
    ensures (q + 1) * d == q * d + d && q <= q * d
  {
    if q > 0 { NextMultiple(q - 1, d); }
  }

  function SignerState(tx: Tx): (Address, Hash) {
    (tx.signer, tx.lastState)
  }

  // ---- Consistency of the indexes ----

  ghost function TotalSize(txs: map<Hash, Tx>): nat {
    if txs == map[] then 0 else
    var h :| h in txs;
    txs[h].size + TotalSize(txs - {h})
  }

  lemma {:induction false} TotalSizeSplits(txs: map<Hash, Tx>, h: Hash)
    requires h in txs
    ensures TotalSize(txs) == txs[h].size + TotalSize(txs - {h})
    decreases |txs|
  {
    var k :| k in txs && TotalSize(txs) == txs[k].size + TotalSize(txs - {k});
    if k != h {
      TotalSizeSplits(txs - {k}, h);
      TotalSizeSplits(txs - {h}, k);
      assert txs - {k} - {h} == txs - {h} - {k};
    }
  }

  lemma TotalSizeGrows(txs: map<Hash, Tx>, h: Hash, tx: Tx)
    requires h !in txs
    ensures TotalSize(txs[h := tx]) == TotalSize(txs) + tx.size
  {
    TotalSizeSplits(txs[h := tx], h);
    assert txs[h := tx] - {h} == txs;
  }

  /** Signer-state entries match transactions one to one. */
  ghost predicate SignersAgree(p: Pool) {
    && (forall h :: h in p.txs ==>
         SignerState(p.txs[h]) in p.bySignerState && p.bySignerState[SignerState(p.txs[h])] == h)
    && (forall k :: k in p.bySignerState ==>
         p.bySignerState[k] in p.txs && SignerState(p.txs[p.bySignerState[k]]) == k)
  }

  /** Reserved coins are exactly the redeemed ones, each owned by one transaction. */
  ghost predicate CoinsAgree(p: Pool) {
    && (forall h, c :: h in p.txs && c in p.txs[h].coins ==> c in p.reserved && p.reserved[c] == h)
    && (forall c :: c in p.reserved ==> p.reserved[c] in p.txs && c in p.txs[p.reserved[c]].coins)
  }

  ghost predicate WithinLimits(p: Pool) {
    |p.txs| <= p.config.maxTransactions && p.totalBytes <= p.config.maxBytes
  }

  ghost predicate Consistent(p: Pool) {
    && p.config.maxBytes < U64_MAX
    && (forall h :: h in p.txs ==> p.txs[h].hash == h)
    && p.insertedAt.Keys == p.txs.Keys
    && SignersAgree(p)
    && CoinsAgree(p)
    && p.totalBytes == TotalSize(p.txs)
    && WithinLimits(p)
  }

  // ---- Removal ----

  function OwnedCoins(p: Pool, h: Hash, coins: seq<Coin>): set<Coin> {
    set c | c in coins && c in p.reserved && p.reserved[c] == h
  }

  function Remove(p: Pool, h: Hash): Pool {
    if h !in p.txs then p else
    var tx := p.txs[h];
    p.(txs := p.txs - {h},
       insertedAt := p.insertedAt - {h},
       totalBytes := SaturatingSub(p.totalBytes, tx.size),
       bySignerState := p.bySignerState - {SignerState(tx)},
       reserved := p.reserved - OwnedCoins(p, h, tx.coins))
  }

  function RemoveAll(p: Pool, hashes: seq<Hash>): Pool
    decreases |hashes|
  {
    if hashes == [] then p else RemoveAll(Remove(p, hashes[0]), hashes[1..])
  }

  lemma RemoveKeepsSigners(p: Pool, h: Hash)
    requires SignersAgree(p)
    ensures SignersAgree(Remove(p, h))
  {
    if h in p.txs {
      var q := Remove(p, h);
      forall k | k in q.txs ensures SignerState(q.txs[k]) in q.bySignerState {
        assert p.bySignerState[SignerState(p.txs[k])] == k;
      }
    }
  }

  lemma RemoveKeepsCoins(p: Pool, h: Hash)
    requires CoinsAgree(p)
    ensures CoinsAgree(Remove(p, h))
  {
  }

  lemma RemoveKeepsSizes(p: Pool, h: Hash)
    requires h in p.txs && p.totalBytes == TotalSize(p.txs) && WithinLimits(p)
    ensures Remove(p, h).totalBytes == TotalSize(Remove(p, h).txs) && WithinLimits(Remove(p, h))
  {
    hide OwnedCoins, TotalSize, SignerState;
    TotalSizeSplits(p.txs, h);
    assert p.txs.Keys == Remove(p, h).txs.Keys + {h};
  }

  lemma RemoveKeepsConsistent(p: Pool, h: Hash)
    requires Consistent(p)
    ensures Consistent(Remove(p, h))
  {
    hide SignersAgree, CoinsAgree, TotalSize, OwnedCoins, SignerState, WithinLimits;
    if h in p.txs {
      RemoveKeepsSigners(p, h);
      RemoveKeepsCoins(p, h);
      RemoveKeepsSizes(p, h);
    }
  }

  lemma {:induction false} RemoveAllKeepsConsistent(p: Pool, hashes: seq<Hash>)
    requires Consistent(p)
    ensures Consistent(RemoveAll(p, hashes))
    decreases |hashes|
  {
    if hashes != [] {
      RemoveKeepsConsistent(p, hashes[0]);
      RemoveAllKeepsConsistent(Remove(p, hashes[0]), hashes[1..]);
    }
  }

  // ---- Eviction ----

  /** Eviction order: lowest rate, then oldest, then lowest hash. */
  function EvictionKey(p: Pool, h: Hash): Key
    requires h in p.txs
  {
    Key(Rate(p.txs[h]), if h in p.insertedAt then p.insertedAt[h] else 0, h)
  }

  function EvictionKeys(p: Pool): set<Key> {
    set h | h in p.txs :: EvictionKey(p, h)
  }

  function EvictionOrder(p: Pool): seq<Key> {
    Sorted(EvictionKeys(p))
  }

  function LowestFeeCandidate(p: Pool): (victim: Option<Hash>)
    ensures victim.None? <==> p.txs == map[]
    ensures victim.Some? ==> victim.value in p.txs
  {
    if p.txs == map[] then None else
    var first :| first in p.txs;
    assert EvictionKey(p, first) in EvictionKeys(p);
    Some(Least(EvictionKeys(p)).c)
  }

  lemma CandidateIsLeast(p: Pool)
    requires p.txs != map[]
    ensures EvictionKeys(p) != {}
    ensures EvictionKey(p, LowestFeeCandidate(p).value) == Least(EvictionKeys(p))
  {
    var first :| first in p.txs;
    assert EvictionKey(p, first) in EvictionKeys(p);
  }

  /** `h` goes before `k`: it pays less, or the same and came earlier, or that too and has the lower
      hash. */
  ghost predicate GoesBefore(p: Pool, h: Hash, k: Hash)
    requires h in p.txs && k in p.txs && h in p.insertedAt && k in p.insertedAt
  {
    || Rate(p.txs[h]) < Rate(p.txs[k])
    || (Rate(p.txs[h]) == Rate(p.txs[k]) &&
        (p.insertedAt[h] < p.insertedAt[k] || (p.insertedAt[h] == p.insertedAt[k] && h < k)))
  }

  /** The eviction order lists every entry once, each going before those after it, with its rate. */
  lemma EvictionOrderIs(p: Pool)
    requires p.insertedAt.Keys == p.txs.Keys
    ensures
      var order := EvictionOrder(p);
      && (forall i :: 0 <= i < |order| ==> order[i].c in p.txs && order[i].a == Rate(p.txs[order[i].c]))
      && (forall i, j :: 0 <= i < j < |order| ==> GoesBefore(p, order[i].c, order[j].c))
      && (forall h :: h in p.txs ==> exists i :: 0 <= i < |order| && order[i].c == h)
  {
    hide Rate, Sorted;
    var order := EvictionOrder(p);
    SortedIsAscending(EvictionKeys(p));
    forall i | 0 <= i < |order| ensures order[i].c in p.txs && order[i] == EvictionKey(p, order[i].c) {
      assert order[i] in EvictionKeys(p);
    }
    forall h | h in p.txs ensures exists i :: 0 <= i < |order| && order[i].c == h {
      assert EvictionKey(p, h) in order;
      var i :| 0 <= i < |order| && order[i] == EvictionKey(p, h);
      assert order[i].c == h;
    }
  }

  predicate HasRoom(p: Pool, size: nat) {
    |p.txs| < p.config.maxTransactions && SaturatingAdd(p.totalBytes, size) <= p.config.maxBytes
  }

  /** Evicts until there is room, or the cheapest entry pays at least as much. */
  function Evict(p: Pool, rate: nat, size: nat): (Pool, Option<PoolError>)
    decreases |p.txs|
  {
    if HasRoom(p, size) then (p, None) else
    match LowestFeeCandidate(p)
    case None => (p, Some(MempoolFull))
    case Some(h) =>
      if rate <= Rate(p.txs[h]) then (p, Some(FeeTooLow)) else
      assert Remove(p, h).txs.Keys == p.txs.Keys - {h};
      Evict(Remove(p, h), rate, size)
  }

  /** How many entries `Evict` removes. */
  function Evictions(p: Pool, rate: nat, size: nat): nat
    decreases |p.txs|
  {
    if HasRoom(p, size) then 0 else
    match LowestFeeCandidate(p)
    case None => 0
    case Some(h) =>
      if rate <= Rate(p.txs[h]) then 0 else
      assert Remove(p, h).txs.Keys == p.txs.Keys - {h};
      1 + Evictions(Remove(p, h), rate, size)
  }

  function Hashes(keys: seq<Key>): seq<Hash> {
    seq(|keys|, i requires 0 <= i < |keys| => keys[i].c)
  }

  /** The pool without the `n` cheapest entries. */
  function WithoutCheapest(p: Pool, n: nat): Pool
    requires n <= |EvictionOrder(p)|
  {
    RemoveAll(p, Hashes(EvictionOrder(p)[..n]))
  }

  lemma OrderAfterRemove(p: Pool, h: Hash)
    requires LowestFeeCandidate(p) == Some(h)
    ensures EvictionOrder(p) == [EvictionKey(p, h)] + EvictionOrder(Remove(p, h))
  {
    var q := Remove(p, h);
    forall k ensures k in EvictionKeys(q) <==> k in EvictionKeys(p) - {EvictionKey(p, h)} {
      if k in EvictionKeys(p) - {EvictionKey(p, h)} {
        var g :| g in p.txs && EvictionKey(p, g) == k;
        assert g in q.txs && EvictionKey(q, g) == k;
      }
      if k in EvictionKeys(q) {
        var g :| g in q.txs && EvictionKey(q, g) == k;
        assert g in p.txs && EvictionKey(p, g) == k;
      }
    }
    assert EvictionKeys(q) == EvictionKeys(p) - {EvictionKey(p, h)};
    CandidateIsLeast(p);
  }

  lemma WithoutCheapestSteps(p: Pool, h: Hash, n: nat)
    requires LowestFeeCandidate(p) == Some(h)
    requires 0 < n <= |EvictionOrder(p)|
    ensures n - 1 <= |EvictionOrder(Remove(p, h))|
    ensures WithoutCheapest(p, n) == WithoutCheapest(Remove(p, h), n - 1)
  {
    OrderAfterRemove(p, h);
    var o, rest := EvictionOrder(p), EvictionOrder(Remove(p, h));
    assert Hashes(o[..n])[1..] == Hashes(rest[..n - 1]);
    assert Hashes(o[..n])[0] == h;
  }

  ghost predicate PrefixDropped(p: Pool, rate: nat, size: nat, n: nat) {
    && n <= |EvictionOrder(p)|
    && forall i :: 0 <= i < n ==>
         EvictionOrder(p)[i].a < rate && !HasRoom(WithoutCheapest(p, i), size)
  }

  ghost predicate OutcomeExplained(p: Pool, rate: nat, size: nat, n: nat, q: Pool, error: Option<PoolError>)
    requires n <= |EvictionOrder(p)|
  {
    && q == WithoutCheapest(p, n)
    && (error.None? <==> HasRoom(q, size))
    && (error == Some(FeeTooLow) <==>
         !HasRoom(q, size) && n < |EvictionOrder(p)| && rate <= EvictionOrder(p)[n].a)
    && (error == Some(MempoolFull) <==> !HasRoom(q, size) && n == |EvictionOrder(p)|)
  }

  /** Making room drops the shortest prefix of the eviction order that suffices, never an entry
      paying as much as the newcomer; it fails exactly when that prefix runs into such an entry,
      or out of entries. */
  lemma {:induction false} EvictionIsCheapestPrefix(p: Pool, rate: nat, size: nat)
    ensures
      var n := Evictions(p, rate, size);
      var (q, error) := Evict(p, rate, size);
      PrefixDropped(p, rate, size, n) && OutcomeExplained(p, rate, size, n, q, error)
    decreases |p.txs|
  {
    var n := Evictions(p, rate, size);
    var (end, error) := Evict(p, rate, size);
    if n == 0 {
      assert WithoutCheapest(p, 0) == p;
      match LowestFeeCandidate(p)
      case None => assert EvictionKeys(p) == {};
      case Some(h) => OrderAfterRemove(p, h);
    } else {
      var h := LowestFeeCandidate(p).value;
      var q := Remove(p, h);
      assert q.txs.Keys == p.txs.Keys - {h};
      EvictionIsCheapestPrefix(q, rate, size);
      OrderAfterRemove(p, h);
      EvictionStep(p, h, rate, size, n, end, error);
    }
  }

  lemma EvictionStep(p: Pool, h: Hash, rate: nat, size: nat, n: nat, end: Pool, error: Option<PoolError>)
    requires LowestFeeCandidate(p) == Some(h) && !HasRoom(p, size) && Rate(p.txs[h]) < rate
    requires n > 0 && PrefixDropped(Remove(p, h), rate, size, n - 1)
    requires OutcomeExplained(Remove(p, h), rate, size, n - 1, end, error)
    ensures PrefixDropped(p, rate, size, n) && OutcomeExplained(p, rate, size, n, end, error)
  {
    hide Remove, HasRoom, LowestFeeCandidate;
    OrderAfterRemove(p, h);
    assert EvictionKey(p, h).a < rate;
    assert WithoutCheapest(p, 0) == p;
    WithoutCheapestSteps(p, h, n);
    var order, q := EvictionOrder(p), Remove(p, h);
    forall i | 0 <= i < n
      ensures order[i].a < rate && !HasRoom(WithoutCheapest(p, i), size)
    {
      if i > 0 {
        WithoutCheapestSteps(p, h, i);
        assert order[i] == EvictionOrder(q)[i - 1];
      }
    }
  }

  // ---- Admission ----

  function ApplyAll(r: Rules, state: State, txs: seq<Tx>, height: nat): Option<State>
    decreases |txs|
  {
    if txs == [] then Some(state) else
    match r.applyTx(state, txs[0], height)
    case None => None
    case Some(next) => ApplyAll(r, next, txs[1..], height)
  }

  function NextHeight(ledger: Ledger): nat {
    if ledger.chain == [] then 0 else SaturatingAdd(|ledger.chain| - 1, 1)
  }

  /** The transactions named by `keys`, in key order. */
  function Listed(txs: map<Hash, Tx>, keys: set<Key>): seq<Tx>
    requires forall k :: k in keys ==> k.c in txs
  {
    SortedIsAscending(keys);
    var order := Sorted(keys);
    assert forall i :: 0 <= i < |order| ==> order[i] in keys;
    seq(|order|, i requires 0 <= i < |order| && order[i].c in txs => txs[order[i].c])
  }

  /** Listing in key order: each place holds the transaction its key names, and every transaction with
      a key has a place. */
  lemma ListedAt(txs: map<Hash, Tx>, keys: set<Key>)
    requires forall k :: k in keys ==> k.c in txs
    ensures |Listed(txs, keys)| == |Sorted(keys)| && Ascending(Sorted(keys))
    ensures forall i :: 0 <= i < |Sorted(keys)| ==>
      Sorted(keys)[i] in keys && Listed(txs, keys)[i] == txs[Sorted(keys)[i].c]
    ensures forall k :: k in keys ==> txs[k.c] in Listed(txs, keys)
  {
    SortedIsAscending(keys);
    var order, q := Sorted(keys), Listed(txs, keys);
    forall k | k in keys ensures txs[k.c] in q {
      assert k in order;
      var i :| 0 <= i < |order| && order[i] == k;
      assert q[i] == txs[k.c];
    }
  }

  /** The pool ordered by signer and then hash, as admission replays it. */
  function PendingOrder(txs: map<Hash, Tx>): seq<Tx> {
    Listed(txs, set h | h in txs :: Key(txs[h].signer, h, h))
  }

  ghost predicate Kept(txs: map<Hash, Tx>, q: seq<Tx>) {
    forall tx :: tx in q <==> tx.hash in txs && txs[tx.hash] == tx
  }

  /** Admission replays every pending transaction once, by signer and then hash. */
  lemma PendingIsLined(txs: map<Hash, Tx>)
    requires forall h :: h in txs ==> txs[h].hash == h
    ensures Kept(txs, PendingOrder(txs))
    ensures
      var q := PendingOrder(txs);
      forall i, j :: 0 <= i < j < |q| ==>
        q[i].signer < q[j].signer || (q[i].signer == q[j].signer && q[i].hash < q[j].hash)
  {
    hide Listed, Sorted;
    var keys := set h | h in txs :: Key(txs[h].signer, h, h);
    var order, q := Sorted(keys), PendingOrder(txs);
    ListedAt(txs, keys);
    forall i | 0 <= i < |order| ensures order[i] == Key(q[i].signer, q[i].hash, q[i].hash) && q[i].hash in txs {
      assert order[i] in keys;
    }
    forall h | h in txs ensures txs[h] in q {
      assert Key(txs[h].signer, h, h) in keys;
    }
  }

  function ReserveCoins(reserved: map<Coin, Hash>, coins: seq<Coin>, h: Hash): map<Coin, Hash> {
    reserved + map c | c in coins :: h
  }

  function Admit(p: Pool, tx: Tx, now: nat): Pool {
    p.(reserved := ReserveCoins(p.reserved, tx.coins, tx.hash),
       bySignerState := p.bySignerState[SignerState(tx) := tx.hash],
       txs := p.txs[tx.hash := tx],
       insertedAt := p.insertedAt[tx.hash := now],
       totalBytes := SaturatingAdd(p.totalBytes, tx.size))
  }

  predicate CoinTaken(p: Pool, tx: Tx) {
    exists c :: c in tx.coins && c in p.reserved
  }

  /** `insert_validated`: note that a refusal after `Evict` keeps the evictions. */
  function Insert(r: Rules, p: Pool, ledger: Ledger, tx: Tx, now: nat): (Pool, Result<Hash, PoolError>) {
    if tx.size > p.config.maxBytes then (p, Err(MempoolFull))
    else if tx.minerOutputs > 1 then (p, Err(DuplicateBlockMinerFeeOutput))
    else if tx.hash in p.txs || SignerState(tx) in p.bySignerState then (p, Err(DuplicateTransaction))
    else
      var (q, error) := Evict(p, Rate(tx), tx.size);
      if error.Some? then (q, Err(error.value))
      else if CoinTaken(q, tx) then (q, Err(CashCoinReserved))
      else if ApplyAll(r, ledger.state, PendingOrder(q.txs[tx.hash := tx]), NextHeight(ledger)).None?
        then (q, Err(LedgerRefused))
      else (Admit(q, tx, now), Ok(tx.hash))
  }

  lemma AdmitKeepsSigners(p: Pool, tx: Tx, now: nat)
    requires SignersAgree(p) && tx.hash !in p.txs && SignerState(tx) !in p.bySignerState
    ensures SignersAgree(Admit(p, tx, now))
  {
  }

  lemma AdmitKeepsCoins(p: Pool, tx: Tx, now: nat)
    requires CoinsAgree(p) && tx.hash !in p.txs && !CoinTaken(p, tx)
    ensures CoinsAgree(Admit(p, tx, now))
  {
    var q := Admit(p, tx, now);
    forall h, c | h in q.txs && c in q.txs[h].coins
      ensures c in q.reserved && q.reserved[c] == h
    {
      if h != tx.hash { assert c in p.txs[h].coins; }
    }
  }

  lemma AdmitKeepsConsistent(p: Pool, tx: Tx, now: nat)
    requires Consistent(p) && HasRoom(p, tx.size)
    requires tx.hash !in p.txs && SignerState(tx) !in p.bySignerState && !CoinTaken(p, tx)
    ensures Consistent(Admit(p, tx, now))
  {
    hide SignersAgree, CoinsAgree, CoinTaken, TotalSize, ReserveCoins;
    AdmitKeepsSigners(p, tx, now);
    AdmitKeepsCoins(p, tx, now);
    TotalSizeGrows(p.txs, tx.hash, tx);
    assert Admit(p, tx, now).txs.Keys == p.txs.Keys + {tx.hash};
  }

  /** The checks that refuse a transaction before anything is evicted. */
  predicate RefusedEarly(p: Pool, tx: Tx) {
    tx.size > p.config.maxBytes || tx.minerOutputs > 1 || tx.hash in p.txs || SignerState(tx) in p.bySignerState
  }

  /** Whatever an insert answers, it starts by dropping the shortest sufficient prefix of the
      cheapest entries, unless it is refused early; a refusal changes nothing more, and an
      acceptance adds exactly the newcomer. */
  lemma InsertDropsThenAdds(r: Rules, p: Pool, ledger: Ledger, tx: Tx, now: nat) returns (n: nat)
    ensures n == if RefusedEarly(p, tx) then 0 else Evictions(p, Rate(tx), tx.size)
    ensures PrefixDropped(p, Rate(tx), tx.size, n)
    ensures Insert(r, p, ledger, tx, now).1.Err? ==>
      Insert(r, p, ledger, tx, now).0 == WithoutCheapest(p, n)
    ensures Insert(r, p, ledger, tx, now).1.Ok? ==>
      && Insert(r, p, ledger, tx, now).1.value == tx.hash
      && Insert(r, p, ledger, tx, now).0 == Admit(WithoutCheapest(p, n), tx, now)
      && HasRoom(WithoutCheapest(p, n), tx.size)
      && !RefusedEarly(p, tx)
      && !CoinTaken(WithoutCheapest(p, n), tx)
  {
    hide HasRoom, ApplyAll, PendingOrder, Admit, CoinTaken, EvictionOrder;
    EvictionIsCheapestPrefix(p, Rate(tx), tx.size);
    assert WithoutCheapest(p, 0) == p;
    n := if RefusedEarly(p, tx) then 0 else Evictions(p, Rate(tx), tx.size);
  }

  /** What survives is the old pool without the listed entries. */
  lemma {:induction false} RemoveAllExact(p: Pool, hashes: seq<Hash>)
    ensures RemoveAll(p, hashes).txs == p.txs - (set h | h in hashes)
    ensures RemoveAll(p, hashes).bySignerState.Keys <= p.bySignerState.Keys
    decreases |hashes|
  {
    hide OwnedCoins, SignerState;
    if hashes != [] {
      RemoveAllExact(Remove(p, hashes[0]), hashes[1..]);
      assert hashes == [hashes[0]] + hashes[1..];
      assert Remove(p, hashes[0]).txs == p.txs - {hashes[0]};
    }
  }

  lemma {:induction false} RemoveAllKeepsConfig(p: Pool, hashes: seq<Hash>)
    ensures RemoveAll(p, hashes).config == p.config
    decreases |hashes|
  {
    hide OwnedCoins, SignerState;
    if hashes != [] {
      RemoveAllKeepsConfig(Remove(p, hashes[0]), hashes[1..]);
    }
  }

  lemma CheapestIsHeld(p: Pool)
    ensures |EvictionOrder(p)| == 0 <==> p.txs == map[]
    ensures p.txs != map[] ==>
      EvictionOrder(p)[0].c in p.txs && EvictionOrder(p)[0] == EvictionKey(p, EvictionOrder(p)[0].c)
  {
    SortedIsAscending(EvictionKeys(p));
    if p.txs != map[] {
      CandidateIsLeast(p);
      assert EvictionOrder(p)[0] in EvictionKeys(p);
    }
  }

  /** A refused insert leaves the pool as it was exactly when it was refused early, there was room
      anyway, the pool was empty, or the newcomer pays no more than the cheapest entry. */
  lemma RefusalChangesNothingIff(r: Rules, p: Pool, ledger: Ledger, tx: Tx, now: nat)
    requires Insert(r, p, ledger, tx, now).1.Err?
    ensures p.txs != map[] ==> EvictionOrder(p) != []
    ensures Insert(r, p, ledger, tx, now).0 == p <==>
      RefusedEarly(p, tx) || HasRoom(p, tx.size) || p.txs == map[] || Rate(tx) <= EvictionOrder(p)[0].a
  {
    hide Insert, HasRoom, ApplyAll, PendingOrder, CoinTaken, EvictionOrder, Remove;
    var n := InsertDropsThenAdds(r, p, ledger, tx, now);
    CheapestIsHeld(p);
    assert WithoutCheapest(p, 0) == p;
    FirstEviction(p, Rate(tx), tx.size);
    if n > 0 {
      RemoveAllExact(p, Hashes(EvictionOrder(p)[..n]));
      assert Hashes(EvictionOrder(p)[..n])[0] == EvictionOrder(p)[0].c;
      assert EvictionOrder(p)[0].c !in WithoutCheapest(p, n).txs;
    }
  }

  lemma FirstEviction(p: Pool, rate: nat, size: nat)
    requires p.txs != map[] ==> EvictionOrder(p) != []
    ensures Evictions(p, rate, size) == 0 <==> HasRoom(p, size) || p.txs == map[] || rate <= EvictionOrder(p)[0].a
  {
    hide HasRoom;
    if p.txs != map[] {
      CandidateIsLeast(p);
    }
  }

  /** There is room exactly when the pool with the newcomer is within both limits. */
  lemma RoomIff(p: Pool, tx: Tx, now: nat)
    requires tx.hash !in p.txs
    ensures HasRoom(p, tx.size) <==> WithinLimits(Admit(p, tx, now))
  {
    assert Admit(p, tx, now).txs.Keys == p.txs.Keys + {tx.hash};
  }

  /** The answer of an insert that is not refused early, by what is left after the evictions: each
      refusal exactly when, and acceptance exactly when none applies and the pool with the newcomer
      replays on the ledger. */
  lemma InsertAnswers(r: Rules, p: Pool, ledger: Ledger, tx: Tx, now: nat) returns (n: nat)
    ensures PrefixDropped(p, Rate(tx), tx.size, n)
    ensures
      var answer := Insert(r, p, ledger, tx, now).1;
      var left := WithoutCheapest(p, n);
      var room := HasRoom(left, tx.size);
      var free := forall c :: c in tx.coins ==> c !in left.reserved;
      var height := if ledger.chain == [] then 0 else Min(|ledger.chain|, U64_MAX);
      var replays := ApplyAll(r, ledger.state, PendingOrder(left.txs[tx.hash := tx]), height).Some?;
      if tx.size > p.config.maxBytes then answer == Err(MempoolFull)
      else if tx.minerOutputs > 1 then answer == Err(DuplicateBlockMinerFeeOutput)
      else if tx.hash in p.txs || SignerState(tx) in p.bySignerState then answer == Err(DuplicateTransaction)
      else
        && (answer == Err(FeeTooLow) <==>
             !room && n < |EvictionOrder(p)| && Rate(tx) <= EvictionOrder(p)[n].a)
        && (answer == Err(MempoolFull) <==> !room && n == |EvictionOrder(p)|)
        && (answer == Err(CashCoinReserved) <==> room && !free)
        && (answer == Err(LedgerRefused) <==> room && free && !replays)
        && (answer == Ok(tx.hash) <==> room && free && replays)
        && answer != Err(DuplicateTransaction) && answer != Err(DuplicateBlockMinerFeeOutput)
  {
    hide HasRoom, ApplyAll, PendingOrder, Admit, EvictionOrder, WithoutCheapest;
    EvictionIsCheapestPrefix(p, Rate(tx), tx.size);
    n := if RefusedEarly(p, tx) then 0 else Evictions(p, Rate(tx), tx.size);
    EvictErrors(p, Rate(tx), tx.size);
  }

  /** Afterwards the pool answers for the transaction, under its own hash or by one with the same
      signer state, exactly when it was accepted or refused as a duplicate. */
  lemma HeldIff(r: Rules, p: Pool, ledger: Ledger, tx: Tx, now: nat)
    requires tx.size <= p.config.maxBytes && tx.minerOutputs <= 1
    ensures
      var (q, result) := Insert(r, p, ledger, tx, now);
      && (tx.hash in q.txs || SignerState(tx) in q.bySignerState <==>
           result.Ok? || result.error == DuplicateTransaction)
      && (result.Ok? ==> tx.hash in q.txs && q.txs[tx.hash] == tx && q.bySignerState[SignerState(tx)] == tx.hash)
      && (result == Err(DuplicateTransaction) <==> tx.hash in p.txs || SignerState(tx) in p.bySignerState)
      && (result == Err(DuplicateTransaction) ==> q == p)
  {
    hide HasRoom, ApplyAll, PendingOrder, CoinTaken, EvictionOrder, WithoutCheapest;
    var n := InsertDropsThenAdds(r, p, ledger, tx, now);
    if !RefusedEarly(p, tx) {
      RemoveAllExact(p, Hashes(EvictionOrder(p)[..n]));
      DroppedIs(p, n);
      EvictErrors(p, Rate(tx), tx.size);
    }
  }

  lemma DroppedIs(p: Pool, n: nat)
    requires n <= |EvictionOrder(p)|
    ensures WithoutCheapest(p, n) == RemoveAll(p, Hashes(EvictionOrder(p)[..n]))
  {
  }

  lemma {:induction false} EvictErrors(p: Pool, rate: nat, size: nat)
    ensures Evict(p, rate, size).1 in {None, Some(MempoolFull), Some(FeeTooLow)}
    decreases |p.txs|
  {
    hide HasRoom;
    if !HasRoom(p, size) && p.txs != map[] {
      var h := LowestFeeCandidate(p).value;
      assert Remove(p, h).txs.Keys == p.txs.Keys - {h};
      EvictErrors(Remove(p, h), rate, size);
    }
  }

  lemma InsertTouchesOne(r: Rules, p: Pool, ledger: Ledger, tx: Tx, now: nat)
    ensures Insert(r, p, ledger, tx, now).0.txs.Keys <= p.txs.Keys +
      if Insert(r, p, ledger, tx, now).1.Ok? then {tx.hash} else {}
    ensures Insert(r, p, ledger, tx, now).1.Ok? ==>
      tx.hash in Insert(r, p, ledger, tx, now).0.txs && Insert(r, p, ledger, tx, now).0.txs[tx.hash] == tx
  {
    var n := InsertDropsThenAdds(r, p, ledger, tx, now);
    RemoveAllExact(p, Hashes(EvictionOrder(p)[..n]));
  }

  lemma InsertKeepsConsistent(r: Rules, p: Pool, ledger: Ledger, tx: Tx, now: nat)
    requires Consistent(p)
    ensures Consistent(Insert(r, p, ledger, tx, now).0)
  {
    var n := InsertDropsThenAdds(r, p, ledger, tx, now);
    var dropped := Hashes(EvictionOrder(p)[..n]);
    RemoveAllKeepsConsistent(p, dropped);
    RemoveAllExact(p, dropped);
    if Insert(r, p, ledger, tx, now).1.Ok? {
      AdmitKeepsConsistent(WithoutCheapest(p, n), tx, now);
    }
  }

  // ---- Every run keeps the pool consistent ----

  datatype Op =
    | OpInsert(ledger: Ledger, tx: Tx, at: nat)
    | OpRemove(hash: Hash)
    | OpConfirm(block: Block)
    | OpExpire(now: nat)

  /** The distinct hashes of a block's transactions in ascending order. */
  function ConfirmedHashes(b: Block): seq<Hash> {
    Hashes(Sorted(set i | 0 <= i < |b.body.txs| :: Key(b.body.txs[i].hash, 0, b.body.txs[i].hash)))
  }

  function ConfirmAll(p: Pool, b: Block): Pool {
    RemoveAll(p, ConfirmedHashes(b))
  }

  predicate Expired(p: Pool, h: Hash, now: nat) {
    SaturatingAdd(if h in p.insertedAt then p.insertedAt[h] else now, p.config.ttlSecs) <= now
  }

  function ExpiredHashes(p: Pool, now: nat): seq<Hash> {
    Hashes(Sorted(set h | h in p.txs && Expired(p, h, now) :: Key(h, 0, h)))
  }

  /** A zero time-to-live disables expiry. */
  function Expire(p: Pool, now: nat): Pool {
    if p.config.ttlSecs == 0 then p else RemoveAll(p, ExpiredHashes(p, now))
  }

  lemma HashesListed(keys: set<Key>)
    ensures forall h :: h in Hashes(Sorted(keys)) <==> exists k :: k in keys && k.c == h
  {
    SortedIsAscending(keys);
    var order := Sorted(keys);
    forall h ensures h in Hashes(order) <==> exists k :: k in keys && k.c == h {
      if h in Hashes(order) {
        var i :| 0 <= i < |order| && Hashes(order)[i] == h;
        assert order[i] in keys;
      }
      if k :| k in keys && k.c == h {
        var i :| 0 <= i < |order| && order[i] == k;
        assert Hashes(order)[i] == h;
      }
    }
  }

  /** Expiry removes exactly the expired entries. */
  lemma ExpireExact(p: Pool, now: nat)
    ensures Expire(p, now).txs == map h | h in p.txs && (p.config.ttlSecs == 0 || !Expired(p, h, now)) :: p.txs[h]
  {
    hide Sorted, RemoveAll, Expired;
    if p.config.ttlSecs != 0 {
      var keys := set h | h in p.txs && Expired(p, h, now) :: Key(h, 0, h);
      HashesListed(keys);
      RemoveAllExact(p, ExpiredHashes(p, now));
      assert forall h :: h in p.txs && Expired(p, h, now) ==> Key(h, 0, h) in keys;
    }
  }

  /** Confirmation removes exactly the block's transactions. */
  lemma ConfirmExact(p: Pool, b: Block)
    ensures ConfirmAll(p, b).txs == map h | h in p.txs && !Carries(b, h) :: p.txs[h]
  {
    hide Sorted, RemoveAll;
    var keys := set i | 0 <= i < |b.body.txs| :: Key(b.body.txs[i].hash, 0, b.body.txs[i].hash);
    HashesListed(keys);
    RemoveAllExact(p, ConfirmedHashes(b));
    forall h ensures (exists k :: k in keys && k.c == h) <==> Carries(b, h) {
      if Carries(b, h) {
        var i :| 0 <= i < |b.body.txs| && b.body.txs[i].hash == h;
        assert Key(b.body.txs[i].hash, 0, b.body.txs[i].hash) in keys;
      }
    }
  }

  /** A transaction accepted at `at` is there until its time is up: expiry at `now` removes it exactly
      when the time-to-live is set and has passed since. */
  lemma LivesItsTime(r: Rules, p: Pool, ledger: Ledger, tx: Tx, at: nat, now: nat)
    requires Insert(r, p, ledger, tx, at).1.Ok?
    ensures
      var q := Insert(r, p, ledger, tx, at).0;
      && tx.hash in q.txs && q.txs[tx.hash] == tx
      && (tx.hash in Expire(q, now).txs <==> p.config.ttlSecs == 0 || now < Min(at + p.config.ttlSecs, U64_MAX))
  {
    hide HasRoom, ApplyAll, PendingOrder, CoinTaken, EvictionOrder, Evict, Evictions, Remove, ReserveCoins, Expire;
    var n := InsertDropsThenAdds(r, p, ledger, tx, at);
    RemoveAllKeepsConfig(p, Hashes(EvictionOrder(p)[..n]));
    ExpireExact(Insert(r, p, ledger, tx, at).0, now);
  }

  function Step(r: Rules, p: Pool, op: Op): Pool {
    match op
    case OpInsert(ledger, tx, at) => Insert(r, p, ledger, tx, at).0
    case OpRemove(h) => Remove(p, h)
    case OpConfirm(b) => ConfirmAll(p, b)
    case OpExpire(now) => Expire(p, now)
  }

  function Run(r: Rules, p: Pool, ops: seq<Op>): Pool
    decreases |ops|
  {
    if ops == [] then p else Run(r, Step(r, p, ops[0]), ops[1..])
  }

  lemma StepKeepsConsistent(r: Rules, p: Pool, op: Op)
    requires Consistent(p)
    ensures Consistent(Step(r, p, op))
  {
    match op
    case OpInsert(ledger, tx, at) => InsertKeepsConsistent(r, p, ledger, tx, at);
    case OpRemove(h) => RemoveKeepsConsistent(p, h);
    case OpConfirm(b) => RemoveAllKeepsConsistent(p, ConfirmedHashes(b));
    case OpExpire(now) => RemoveAllKeepsConsistent(p, ExpiredHashes(p, now));
  }

  /** From an empty pool, every sequence of operations keeps the five indexes in agreement
      and both limits respected. */
  lemma {:induction false} PoolAlwaysConsistent(r: Rules, config: Config, ops: seq<Op>)
    requires config.maxBytes < U64_MAX
    ensures Consistent(Run(r, Empty(config), ops))
  {
    assert Consistent(Empty(config));
    RunKeepsConsistent(r, Empty(config), ops);
  }

  lemma {:induction false} RunKeepsConsistent(r: Rules, p: Pool, ops: seq<Op>)
    requires Consistent(p)
    ensures Consistent(Run(r, p, ops))
    decreases |ops|
  {
    if ops != [] {
      StepKeepsConsistent(r, p, ops[0]);
      RunKeepsConsistent(r, Step(r, p, ops[0]), ops[1..]);
    }
  }
}

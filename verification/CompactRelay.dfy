/** Compact block relay: short transaction ids first, then whatever the receiver lacks. */
module CompactRelay {
  import opened Paqus

  datatype CompactBlock = CompactBlock(
    header: Header,
    allocations: seq<Coinbase>,
    coinbase: Option<Coinbase>,
    shortIds: seq<nat>)

  datatype Indexed = Indexed(index: nat, tx: Tx)

  datatype Reconstruction = Complete(block: Block) | Missing(indexes: seq<nat>)

  datatype CompactError =
    | TooManyTransactions
    | InvalidTransactionIndex
    | DuplicateTransactionIndex
    | ShortIdCollision
    | TransactionShortIdMismatch

  /** The short id of a transaction hash within a block: some function, not assumed injective. */
  type ShortId = (Hash, Hash) -> nat

  function Elements(ids: seq<nat>): set<nat> {
    set x | x in ids
  }

  /** How the source looks for repetition: by counting the distinct elements. */
  predicate AllDifferent(ids: seq<nat>) {
    |Elements(ids)| == |ids|
  }

  /** Counting distinct elements detects repetition. */
  lemma {:induction false} AllDifferentMeans(ids: seq<nat>)
    ensures |Elements(ids)| <= |ids|
    ensures AllDifferent(ids) <==> NoRepeats(ids)
  {
    if ids != [] {
      var front, last := ids[..|ids| - 1], ids[|ids| - 1];
      AllDifferentMeans(front);
      assert ids == front + [last];
      assert Elements(ids) == Elements(front) + {last};
      if last in front {
        assert Elements(ids) == Elements(front);
        var i :| 0 <= i < |front| && front[i] == last;
        assert ids[i] == ids[|ids| - 1];
      } else {
        assert forall i :: 0 <= i < |front| ==> ids[i] == front[i] && front[i] in front;
      }
    }
  }

  function Ids(sid: ShortId, block: Hash, txs: seq<Tx>): seq<nat> {
    seq(|txs|, i requires 0 <= i < |txs| => IdOf(sid, block, txs[i]))
  }

  function IdOf(sid: ShortId, block: Hash, tx: Tx): nat {
    sid(block, tx.hash)
  }

  function FromBlock(sid: ShortId, limit: nat, b: Block): Result<CompactBlock, CompactError> {
    var ids := Ids(sid, b.header.hash, b.body.txs);
    if |b.body.txs| > limit then Err(TooManyTransactions)
    else if !AllDifferent(ids) then Err(ShortIdCollision)
    else Ok(CompactBlock(b.header, b.body.allocations, b.body.coinbase, ids))
  }

  // ---- The three loops of `reconstruct` ----

  function TakeSupplied(sid: ShortId, c: CompactBlock, supplied: seq<Indexed>): Result<map<nat, Tx>, CompactError>
    decreases |supplied|
  {
    if supplied == [] then Ok(map[]) else
    var last := supplied[|supplied| - 1];
    match TakeSupplied(sid, c, supplied[..|supplied| - 1])
    case Err(e) => Err(e)
    case Ok(taken) =>
      if last.index >= |c.shortIds| then Err(InvalidTransactionIndex)
      else if sid(c.header.hash, last.tx.hash) != c.shortIds[last.index] then Err(TransactionShortIdMismatch)
      else if last.index in taken then Err(DuplicateTransactionIndex)
      else Ok(taken[last.index := last.tx])
  }

  function TakeFromPool(sid: ShortId, c: CompactBlock, pool: seq<Tx>): Result<map<nat, Tx>, CompactError>
    decreases |pool|
  {
    if pool == [] then Ok(map[]) else
    var last := pool[|pool| - 1];
    match TakeFromPool(sid, c, pool[..|pool| - 1])
    case Err(e) => Err(e)
    case Ok(taken) =>
      var short := sid(c.header.hash, last.hash);
      if short !in c.shortIds then Ok(taken)
      else if short in taken then Err(ShortIdCollision)
      else Ok(taken[short := last])
  }

  /** The transactions found for the first `n` positions, and the positions left open. */
  function Fill(ids: seq<nat>, supplied: map<nat, Tx>, pooled: map<nat, Tx>, n: nat): (seq<Tx>, seq<nat>)
    requires n <= |ids|
  {
    if n == 0 then ([], []) else
    var (txs, missing) := Fill(ids, supplied, pooled, n - 1);
    if n - 1 in supplied then (txs + [supplied[n - 1]], missing)
    else if ids[n - 1] in pooled then (txs + [pooled[ids[n - 1]]], missing)
    else (txs, missing + [n - 1])
  }

  function Rebuilt(c: CompactBlock, txs: seq<Tx>): Block {
    Block(c.header, Body(c.allocations, c.coinbase, txs), 0)
  }

  function Reconstructed(sid: ShortId, limit: nat, c: CompactBlock, pool: seq<Tx>, supplied: seq<Indexed>)
    : Result<Reconstruction, CompactError>
  {
    if |c.shortIds| > limit || |supplied| > limit then Err(TooManyTransactions)
    else if !AllDifferent(c.shortIds) then Err(ShortIdCollision)
    else match TakeSupplied(sid, c, supplied)
      case Err(e) => Err(e)
      case Ok(given) =>
        match TakeFromPool(sid, c, pool)
        case Err(e) => Err(e)
        case Ok(pooled) =>
          var (txs, missing) := Fill(c.shortIds, given, pooled, |c.shortIds|);
          if missing != [] then Ok(Missing(missing)) else Ok(Complete(Rebuilt(c, txs)))
  }

  method Reconstruct(sid: ShortId, limit: nat, c: CompactBlock, pool: seq<Tx>, supplied: seq<Indexed>)
    returns (result: Result<Reconstruction, CompactError>)
    ensures result == Reconstructed(sid, limit, c, pool, supplied)
  {
    if |c.shortIds| > limit || |supplied| > limit {
      return Err(TooManyTransactions);
    }
    if |Elements(c.shortIds)| != |c.shortIds| {
      return Err(ShortIdCollision);
    }
    var given := CollectSupplied(sid, c, supplied);
    if given.Err? {
      return Err(given.error);
    }
    var pooled := CollectPooled(sid, c, pool);
    if pooled.Err? {
      return Err(pooled.error);
    }
    var remaining := given.value;
    var txs, missing := [], [];
    var i := 0;
    while i < |c.shortIds|
      invariant 0 <= i <= |c.shortIds|
      invariant (txs, missing) == Fill(c.shortIds, given.value, pooled.value, i)
      invariant forall k :: k >= i ==> (k in remaining <==> k in given.value)
      invariant forall k :: k in remaining ==> k in given.value && remaining[k] == given.value[k]
    {
      if i in remaining {
        txs := txs + [remaining[i]];
        remaining := remaining - {i};
      } else if c.shortIds[i] in pooled.value {
        txs := txs + [pooled.value[c.shortIds[i]]];
      } else {
        missing := missing + [i];
      }
      i := i + 1;
    }
    if missing != [] {
      return Ok(Missing(missing));
    }
    result := Ok(Complete(Rebuilt(c, txs)));
  }

  method CollectSupplied(sid: ShortId, c: CompactBlock, supplied: seq<Indexed>)
    returns (taken: Result<map<nat, Tx>, CompactError>)
    ensures taken == TakeSupplied(sid, c, supplied)
  {
    var byIndex := map[];
    var i := 0;
    while i < |supplied|
      invariant 0 <= i <= |supplied|
      invariant TakeSupplied(sid, c, supplied[..i]) == Ok(byIndex)
    {
      assert supplied[..i + 1][..i] == supplied[..i];
      var item := supplied[i];
      if item.index >= |c.shortIds| {
        SuppliedFails(sid, c, supplied, i + 1);
        return Err(InvalidTransactionIndex);
      }
      if sid(c.header.hash, item.tx.hash) != c.shortIds[item.index] {
        SuppliedFails(sid, c, supplied, i + 1);
        return Err(TransactionShortIdMismatch);
      }
      if item.index in byIndex {
        SuppliedFails(sid, c, supplied, i + 1);
        return Err(DuplicateTransactionIndex);
      }
      byIndex := byIndex[item.index := item.tx];
      i := i + 1;
    }
    assert supplied[..i] == supplied;
    taken := Ok(byIndex);
  }

  lemma {:induction false} SuppliedFails(sid: ShortId, c: CompactBlock, supplied: seq<Indexed>, n: nat)
    requires n <= |supplied| && TakeSupplied(sid, c, supplied[..n]).Err?
    ensures TakeSupplied(sid, c, supplied) == TakeSupplied(sid, c, supplied[..n])
    decreases |supplied|
  {
    if n == |supplied| {
      assert supplied[..n] == supplied;
    } else {
      var front := supplied[..|supplied| - 1];
      assert front[..n] == supplied[..n];
      SuppliedFails(sid, c, front, n);
    }
  }

  method CollectPooled(sid: ShortId, c: CompactBlock, pool: seq<Tx>) returns (taken: Result<map<nat, Tx>, CompactError>)
    ensures taken == TakeFromPool(sid, c, pool)
  {
    var byShortId := map[];
    var i := 0;
    while i < |pool|
      invariant 0 <= i <= |pool|
      invariant TakeFromPool(sid, c, pool[..i]) == Ok(byShortId)
    {
      assert pool[..i + 1][..i] == pool[..i];
      var short := sid(c.header.hash, pool[i].hash);
      if short in c.shortIds {
        if short in byShortId {
          PooledFails(sid, c, pool, i + 1);
          return Err(ShortIdCollision);
        }
        byShortId := byShortId[short := pool[i]];
      }
      i := i + 1;
    }
    assert pool[..i] == pool;
    taken := Ok(byShortId);
  }

  lemma {:induction false} PooledFails(sid: ShortId, c: CompactBlock, pool: seq<Tx>, n: nat)
    requires n <= |pool| && TakeFromPool(sid, c, pool[..n]).Err?
    ensures TakeFromPool(sid, c, pool) == TakeFromPool(sid, c, pool[..n])
    decreases |pool|
  {
    if n == |pool| {
      assert pool[..n] == pool;
    } else {
      var front := pool[..|pool| - 1];
      assert front[..n] == pool[..n];
      PooledFails(sid, c, front, n);
    }
  }

  // ---- What a complete reconstruction always satisfies ----

  ghost predicate MatchesIds(sid: ShortId, c: CompactBlock, supplied: map<nat, Tx>, pooled: map<nat, Tx>) {
    && (forall i :: i in supplied ==> i < |c.shortIds| && sid(c.header.hash, supplied[i].hash) == c.shortIds[i])
    && (forall s :: s in pooled ==> sid(c.header.hash, pooled[s].hash) == s)
  }

  lemma {:induction false} SuppliedMatch(sid: ShortId, c: CompactBlock, supplied: seq<Indexed>)
    requires TakeSupplied(sid, c, supplied).Ok?
    ensures MatchesIds(sid, c, TakeSupplied(sid, c, supplied).value, map[])
  {
    if supplied != [] { SuppliedMatch(sid, c, supplied[..|supplied| - 1]); }
  }

  lemma {:induction false} PooledMatch(sid: ShortId, c: CompactBlock, pool: seq<Tx>)
    requires TakeFromPool(sid, c, pool).Ok?
    ensures MatchesIds(sid, c, map[], TakeFromPool(sid, c, pool).value)
  {
    if pool != [] { PooledMatch(sid, c, pool[..|pool| - 1]); }
  }

  lemma {:induction false} FillMatches(sid: ShortId, c: CompactBlock, supplied: map<nat, Tx>, pooled: map<nat, Tx>,
      n: nat)
    requires n <= |c.shortIds| && MatchesIds(sid, c, supplied, pooled)
    ensures
      var (txs, missing) := Fill(c.shortIds, supplied, pooled, n);
      missing == [] ==> |txs| == n && forall i :: 0 <= i < n ==> sid(c.header.hash, txs[i].hash) == c.shortIds[i]
  {
    if n > 0 { FillMatches(sid, c, supplied, pooled, n - 1); }
  }

  /** With no assumption on short ids: a complete block keeps header and coinbase, matches every
      short id position by position, and carries no proof. */
  lemma CompleteMatchesEveryId(sid: ShortId, limit: nat, c: CompactBlock, pool: seq<Tx>, supplied: seq<Indexed>,
      b: Block)
    requires Reconstructed(sid, limit, c, pool, supplied) == Ok(Complete(b))
    ensures b.header == c.header && b.body.allocations == c.allocations && b.body.coinbase == c.coinbase
    ensures b.nonce == 0
    ensures Ids(sid, b.header.hash, b.body.txs) == c.shortIds
  {
    SuppliedMatch(sid, c, supplied);
    PooledMatch(sid, c, pool);
    FillMatches(sid, c, TakeSupplied(sid, c, supplied).value, TakeFromPool(sid, c, pool).value, |c.shortIds|);
  }

  // ---- What reconstruction answers ----

  /** The item at `j` is in order: it names a position of the block, has that position's short id, and no
      item before it names the position too. */
  ghost predicate FineAt(sid: ShortId, c: CompactBlock, supplied: seq<Indexed>, j: nat)
    requires j < |supplied|
  {
    var item := supplied[j];
    && item.index < |c.shortIds| && sid(c.header.hash, item.tx.hash) == c.shortIds[item.index]
    && forall i :: 0 <= i < j ==> supplied[i].index != item.index
  }

  /** What is wrong with the first item that is not in order. */
  ghost predicate FaultAt(sid: ShortId, c: CompactBlock, supplied: seq<Indexed>, j: int, e: CompactError) {
    && 0 <= j < |supplied| && !FineAt(sid, c, supplied, j)
    && (forall i :: 0 <= i < j ==> FineAt(sid, c, supplied, i))
    && var item := supplied[j];
       e == if item.index >= |c.shortIds| then InvalidTransactionIndex
            else if sid(c.header.hash, item.tx.hash) != c.shortIds[item.index] then TransactionShortIdMismatch
            else DuplicateTransactionIndex
  }

  lemma FineBefore(sid: ShortId, c: CompactBlock, supplied: seq<Indexed>, n: nat)
    requires n <= |supplied|
    ensures forall i :: 0 <= i < n ==> (FineAt(sid, c, supplied[..n], i) <==> FineAt(sid, c, supplied, i))
  {
  }

  /** `taken` holds the supplied transactions by position. */
  ghost predicate TakenAre(supplied: seq<Indexed>, taken: map<nat, Tx>) {
    && (forall j :: 0 <= j < |supplied| ==>
         supplied[j].index in taken && taken[supplied[j].index] == supplied[j].tx)
    && (forall k :: k in taken ==> exists j :: 0 <= j < |supplied| && supplied[j].index == k)
  }

  ghost predicate AllFine(sid: ShortId, c: CompactBlock, supplied: seq<Indexed>) {
    forall j :: 0 <= j < |supplied| ==> FineAt(sid, c, supplied, j)
  }

  lemma TakenGrow(front: seq<Indexed>, last: Indexed, taken: map<nat, Tx>)
    requires TakenAre(front, taken) && last.index !in taken
    ensures TakenAre(front + [last], taken[last.index := last.tx])
  {
    var supplied, more := front + [last], taken[last.index := last.tx];
    forall k | k in more ensures exists j :: 0 <= j < |supplied| && supplied[j].index == k {
      if k == last.index {
        assert supplied[|front|].index == k;
      } else {
        var j :| 0 <= j < |front| && front[j].index == k;
        assert supplied[j].index == k;
      }
    }
  }

  lemma FaultStays(sid: ShortId, c: CompactBlock, front: seq<Indexed>, last: Indexed, j: int, e: CompactError)
    requires FaultAt(sid, c, front, j, e)
    ensures FaultAt(sid, c, front + [last], j, e)
  {
    var supplied := front + [last];
    assert supplied[..|front|] == front;
    FineBefore(sid, c, supplied, |front|);
  }

  lemma AllFineGrows(sid: ShortId, c: CompactBlock, front: seq<Indexed>, last: Indexed)
    requires AllFine(sid, c, front)
    ensures AllFine(sid, c, front + [last]) <==> FineAt(sid, c, front + [last], |front|)
    ensures forall i :: 0 <= i < |front| ==> FineAt(sid, c, front + [last], i)
  {
    var supplied := front + [last];
    assert supplied[..|front|] == front;
    FineBefore(sid, c, supplied, |front|);
    hide FineAt;
  }

  /** Supplied transactions are taken by position if all are in order, and otherwise refused for what is
      wrong with the first that is not. */
  lemma {:induction false} SuppliedVerdict(sid: ShortId, c: CompactBlock, supplied: seq<Indexed>)
    ensures
      var taken := TakeSupplied(sid, c, supplied);
      && (taken.Ok? <==> AllFine(sid, c, supplied))
      && (taken.Err? ==> exists j :: FaultAt(sid, c, supplied, j, taken.error))
      && (taken.Ok? ==> TakenAre(supplied, taken.value))
    decreases |supplied|
  {
    hide FineAt, TakenAre, FaultAt, AllFine;
    if supplied == [] {
      NothingTaken(sid, c);
    } else {
      var front, last := supplied[..|supplied| - 1], supplied[|supplied| - 1];
      assert supplied == front + [last];
      SuppliedVerdict(sid, c, front);
      var before := TakeSupplied(sid, c, front);
      if before.Err? {
        var j :| FaultAt(sid, c, front, j, before.error);
        FaultStays(sid, c, front, last, j, before.error);
        FaultMeans(sid, c, supplied, j, before.error);
      } else {
        AllFineGrows(sid, c, front, last);
        LastSupplied(sid, c, front, last, before.value);
      }
    }
  }

  lemma NothingTaken(sid: ShortId, c: CompactBlock)
    ensures AllFine(sid, c, []) && TakenAre([], map[])
  {
  }

  lemma FaultMeans(sid: ShortId, c: CompactBlock, supplied: seq<Indexed>, j: int, e: CompactError)
    requires FaultAt(sid, c, supplied, j, e)
    ensures !AllFine(sid, c, supplied)
  {
    hide FineAt;
  }

  lemma LastSupplied(sid: ShortId, c: CompactBlock, front: seq<Indexed>, last: Indexed, before: map<nat, Tx>)
    requires TakeSupplied(sid, c, front) == Ok(before) && TakenAre(front, before)
    requires forall i :: 0 <= i < |front| ==> FineAt(sid, c, front + [last], i)
    ensures
      var taken := TakeSupplied(sid, c, front + [last]);
      && (taken.Ok? <==> FineAt(sid, c, front + [last], |front|))
      && (taken.Err? ==> FaultAt(sid, c, front + [last], |front|, taken.error))
      && (taken.Ok? ==> TakenAre(front + [last], taken.value))
  {
    var supplied := front + [last];
    assert supplied[..|front|] == front;
    LastIsFine(sid, c, front, last, before);
    if last.index !in before { TakenGrow(front, last, before); }
    hide FineAt, TakenAre;
  }

  lemma LastIsFine(sid: ShortId, c: CompactBlock, front: seq<Indexed>, last: Indexed, before: map<nat, Tx>)
    requires TakenAre(front, before)
    ensures FineAt(sid, c, front + [last], |front|) <==>
      && last.index < |c.shortIds| && sid(c.header.hash, last.tx.hash) == c.shortIds[last.index]
      && last.index !in before
  {
    var supplied := front + [last];
    if last.index in before {
      var j :| 0 <= j < |front| && front[j].index == last.index;
      assert supplied[j].index == last.index;
    } else {
      assert forall i :: 0 <= i < |front| ==> supplied[i] == front[i];
    }
  }

  /** Two pool transactions share a short id the block names. */
  ghost predicate PoolClash(sid: ShortId, c: CompactBlock, pool: seq<Tx>, i: int, j: int) {
    0 <= i < j < |pool| && sid(c.header.hash, pool[i].hash) == sid(c.header.hash, pool[j].hash)
    && sid(c.header.hash, pool[j].hash) in c.shortIds
  }

  /** The pool answers for the short ids the block names, unless two of its transactions share one. */
  lemma {:induction false} PoolVerdict(sid: ShortId, c: CompactBlock, pool: seq<Tx>)
    ensures
      var taken := TakeFromPool(sid, c, pool);
      && (taken.Err? <==> exists i, j :: PoolClash(sid, c, pool, i, j))
      && (taken.Err? ==> taken.error == ShortIdCollision)
      && (taken.Ok? ==> Pooled(sid, c, pool, taken.value) && forall k :: k in taken.value ==> k in c.shortIds)
    decreases |pool|
  {
    if pool != [] {
      var n := |pool| - 1;
      var front, last := pool[..n], pool[n];
      assert pool == front + [last];
      PoolVerdict(sid, c, front);
      var before := TakeFromPool(sid, c, front);
      if before.Err? {
        var i, j :| PoolClash(sid, c, front, i, j);
        assert PoolClash(sid, c, pool, i, j);
      } else {
        PoolLast(sid, c, front, last, before.value);
      }
    }
  }

  lemma PoolLast(sid: ShortId, c: CompactBlock, front: seq<Tx>, last: Tx, before: map<nat, Tx>)
    requires TakeFromPool(sid, c, front) == Ok(before)
    requires Pooled(sid, c, front, before) && forall i, j :: !PoolClash(sid, c, front, i, j)
    ensures TakeFromPool(sid, c, front + [last]).Err? <==> exists i, j :: PoolClash(sid, c, front + [last], i, j)
  {
    var pool, short := front + [last], IdOf(sid, c.header.hash, last);
    assert pool[..|front|] == front;
    if short in c.shortIds && short in before {
      var i :| 0 <= i < |front| && front[i] == before[short];
      assert PoolClash(sid, c, pool, i, |front|);
    } else {
      forall i | 0 <= i < |front| && IdOf(sid, c.header.hash, front[i]) in c.shortIds
        ensures IdOf(sid, c.header.hash, front[i]) in before
      {
        assert front[i] in front;
      }
      forall i, j ensures !PoolClash(sid, c, pool, i, j) {
        assert !PoolClash(sid, c, front, i, j);
      }
    }
  }

  /** What fills position `k`: the transaction supplied for it, or else the pool's with its short id. */
  ghost predicate FilledBy(sid: ShortId, c: CompactBlock, pool: seq<Tx>, supplied: seq<Indexed>, k: nat, tx: Tx)
    requires k < |c.shortIds|
  {
    if exists j :: 0 <= j < |supplied| && supplied[j].index == k
    then Indexed(k, tx) in supplied
    else tx in pool && sid(c.header.hash, tx.hash) == c.shortIds[k]
  }

  ghost predicate Open(sid: ShortId, c: CompactBlock, pool: seq<Tx>, supplied: seq<Indexed>, k: nat)
    requires k < |c.shortIds|
  {
    && (forall j :: 0 <= j < |supplied| ==> supplied[j].index != k)
    && (forall tx :: tx in pool ==> sid(c.header.hash, tx.hash) != c.shortIds[k])
  }

  ghost predicate Ascending(q: seq<nat>) {
    forall i, j :: 0 <= i < j < |q| ==> q[i] < q[j]
  }

  /** Neither supplied nor in the pool. */
  ghost predicate Lacks(ids: seq<nat>, given: map<nat, Tx>, pooled: map<nat, Tx>, k: nat)
    requires k < |ids|
  {
    k !in given && ids[k] !in pooled
  }

  ghost predicate ListsLacking(ids: seq<nat>, given: map<nat, Tx>, pooled: map<nat, Tx>, n: nat, missing: seq<nat>)
    requires n <= |ids|
  {
    && Ascending(missing) && (forall i :: 0 <= i < |missing| ==> missing[i] < n)
    && forall k: nat :: k < n ==> (k in missing <==> Lacks(ids, given, pooled, k))
  }

  ghost predicate Fills(ids: seq<nat>, given: map<nat, Tx>, pooled: map<nat, Tx>, k: nat, tx: Tx)
    requires k < |ids|
  {
    if k in given then tx == given[k] else ids[k] in pooled && tx == pooled[ids[k]]
  }

  lemma LackingGrows(ids: seq<nat>, given: map<nat, Tx>, pooled: map<nat, Tx>, n: nat, missing: seq<nat>)
    requires n < |ids| && ListsLacking(ids, given, pooled, n, missing)
    ensures ListsLacking(ids, given, pooled, n + 1,
      if Lacks(ids, given, pooled, n) then missing + [n] else missing)
  {
    hide Lacks;
    assert forall i :: 0 <= i < |missing| ==> missing[i] in missing;
  }

  lemma {:induction false} FillVerdict(ids: seq<nat>, given: map<nat, Tx>, pooled: map<nat, Tx>, n: nat)
    requires n <= |ids|
    ensures
      var (txs, missing) := Fill(ids, given, pooled, n);
      && ListsLacking(ids, given, pooled, n, missing)
      && (missing == [] ==> |txs| == n && forall k :: 0 <= k < n ==> Fills(ids, given, pooled, k, txs[k]))
  {
    hide ListsLacking;
    if n == 0 {
      assert ListsLacking(ids, given, pooled, 0, []) by { NothingLacking(ids, given, pooled); }
    } else {
      FillVerdict(ids, given, pooled, n - 1);
      LackingGrows(ids, given, pooled, n - 1, Fill(ids, given, pooled, n - 1).1);
    }
  }

  lemma NothingLacking(ids: seq<nat>, given: map<nat, Tx>, pooled: map<nat, Tx>)
    ensures ListsLacking(ids, given, pooled, 0, [])
  {
  }

  /** The answer to a compact block, case by case: too many items, a repeated short id, a supplied item
      out of order, or two pool transactions with one id are refused, the first of these that applies;
      otherwise the positions still open are reported in ascending order, or the block is rebuilt from
      what fills each position. */
  lemma ReconstructAnswers(sid: ShortId, limit: nat, c: CompactBlock, pool: seq<Tx>, supplied: seq<Indexed>)
    ensures
      var answer := Reconstructed(sid, limit, c, pool, supplied);
      if |c.shortIds| > limit || |supplied| > limit then answer == Err(TooManyTransactions)
      else if !NoRepeats(c.shortIds) then answer == Err(ShortIdCollision)
      else if exists j :: 0 <= j < |supplied| && !FineAt(sid, c, supplied, j)
        then answer.Err? && exists j :: FaultAt(sid, c, supplied, j, answer.error)
      else if exists i, j :: PoolClash(sid, c, pool, i, j) then answer == Err(ShortIdCollision)
      else
        && answer.Ok?
        && (answer.value.Missing? ==>
             && answer.value.indexes != [] && Ascending(answer.value.indexes)
             && forall k: nat :: k in answer.value.indexes <==>
                  k < |c.shortIds| && Open(sid, c, pool, supplied, k))
        && (answer.value.Complete? ==>
             && |answer.value.block.body.txs| == |c.shortIds|
             && forall k: nat :: k < |c.shortIds| ==>
                  FilledBy(sid, c, pool, supplied, k, answer.value.block.body.txs[k]))
  {
    hide TakeSupplied, TakeFromPool, Fill, FineAt, Elements, PoolClash;
    AllDifferentMeans(c.shortIds);
    SuppliedVerdict(sid, c, supplied);
    PoolVerdict(sid, c, pool);
    if TakeSupplied(sid, c, supplied).Ok? && TakeFromPool(sid, c, pool).Ok? {
      var given, pooled := TakeSupplied(sid, c, supplied).value, TakeFromPool(sid, c, pool).value;
      FillVerdict(c.shortIds, given, pooled, |c.shortIds|);
      forall k: nat | k < |c.shortIds| ensures
        && (Open(sid, c, pool, supplied, k) <==> k !in given && c.shortIds[k] !in pooled)
        && (k in given ==> FilledBy(sid, c, pool, supplied, k, given[k]))
        && (k !in given && c.shortIds[k] in pooled ==> FilledBy(sid, c, pool, supplied, k, pooled[c.shortIds[k]]))
      {
        PositionIs(sid, c, pool, supplied, given, pooled, k);
      }
    }
  }

  lemma PositionIs(
      sid: ShortId, c: CompactBlock, pool: seq<Tx>, supplied: seq<Indexed>, given: map<nat, Tx>, pooled: map<nat, Tx>,
      k: nat)
    requires k < |c.shortIds| && Pooled(sid, c, pool, pooled)
    requires forall j :: 0 <= j < |supplied| ==>
      supplied[j].index in given && given[supplied[j].index] == supplied[j].tx
    requires forall i :: i in given ==> exists j :: 0 <= j < |supplied| && supplied[j].index == i
    ensures Open(sid, c, pool, supplied, k) <==> k !in given && c.shortIds[k] !in pooled
    ensures k in given ==> FilledBy(sid, c, pool, supplied, k, given[k])
    ensures k !in given && c.shortIds[k] in pooled ==> FilledBy(sid, c, pool, supplied, k, pooled[c.shortIds[k]])
  {
    if k in given {
      var j :| 0 <= j < |supplied| && supplied[j].index == k;
      assert supplied[j] == Indexed(k, given[k]);
    } else {
      if c.shortIds[k] in pooled {
        assert pooled[c.shortIds[k]] in pool;
      } else {
        forall tx | tx in pool ensures sid(c.header.hash, tx.hash) != c.shortIds[k] {
          assert IdOf(sid, c.header.hash, tx) in c.shortIds ==> IdOf(sid, c.header.hash, tx) in pooled;
        }
      }
    }
  }

  // ---- Serving the missing transactions ----

  function ServeTransactions(limit: nat, cached: Option<Block>, indexes: seq<nat>): Option<seq<Indexed>> {
    if |indexes| > limit || !AllDifferent(indexes) || cached.None? then None
    else if exists k :: 0 <= k < |indexes| && indexes[k] >= |cached.value.body.txs| then None
    else Some(Answer(cached.value, indexes))
  }

  function Answer(b: Block, indexes: seq<nat>): seq<Indexed>
    requires forall k :: 0 <= k < |indexes| ==> indexes[k] < |b.body.txs|
  {
    seq(|indexes|, k requires 0 <= k < |indexes| => Indexed(indexes[k], b.body.txs[indexes[k]]))
  }

  /** A request for missing transactions is answered in full, position by position, unless it asks for
      too many, repeats one, names a position the block does not have, or the block is not there. */
  lemma ServesExactly(limit: nat, cached: Option<Block>, indexes: seq<nat>)
    ensures
      var reply := ServeTransactions(limit, cached, indexes);
      && (reply.Some? <==>
           && |indexes| <= limit && NoRepeats(indexes) && cached.Some?
           && forall k :: 0 <= k < |indexes| ==> indexes[k] < |cached.value.body.txs|)
      && (reply.Some? ==> |reply.value| == |indexes| && forall k :: 0 <= k < |indexes| ==>
           reply.value[k].index == indexes[k] && reply.value[k].tx == cached.value.body.txs[indexes[k]])
  {
    hide Elements;
    AllDifferentMeans(indexes);
  }

  method AnswerMissing(limit: nat, cached: Option<Block>, indexes: seq<nat>) returns (reply: Option<seq<Indexed>>)
    ensures reply == ServeTransactions(limit, cached, indexes)
  {
    AllDifferentMeans(indexes);
    if |indexes| > limit {
      return None;
    }
    var seen: set<nat> := {};
    var i := 0;
    while i < |indexes|
      invariant 0 <= i <= |indexes|
      invariant forall x :: x in seen <==> x in indexes[..i]
      invariant forall a, b :: 0 <= a < b < i ==> indexes[a] != indexes[b]
    {
      if indexes[i] in seen {
        return None;
      }
      seen := seen + {indexes[i]};
      i := i + 1;
    }
    if cached.None? {
      return None;
    }
    var txs := cached.value.body.txs;
    var out := [];
    i := 0;
    while i < |indexes|
      invariant 0 <= i <= |indexes|
      invariant forall k :: 0 <= k < i ==> indexes[k] < |txs|
      invariant out == Answer(cached.value, indexes[..i])
    {
      if indexes[i] >= |txs| {
        return None;
      }
      out := out + [Indexed(indexes[i], txs[indexes[i]])];
      i := i + 1;
    }
    assert indexes[..i] == indexes;
    reply := Some(out);
  }

  // ---- Two rounds ----

  /** No two different transactions of pool and block share a short id, and the pool has no
      duplicates. */
  ghost predicate Unambiguous(sid: ShortId, b: Block, pool: seq<Tx>) {
    && (forall t, u | t in pool + b.body.txs && u in pool + b.body.txs ::
         IdOf(sid, b.header.hash, t) == IdOf(sid, b.header.hash, u) ==> t == u)
    && (forall i, j :: 0 <= i < j < |pool| ==> pool[i] != pool[j])
  }

  /** Positions among the first `n` whose transaction the pool lacks, in ascending order. */
  function Absent(txs: seq<Tx>, pool: seq<Tx>, n: nat): seq<nat>
    requires n <= |txs|
  {
    if n == 0 then [] else
    Absent(txs, pool, n - 1) + (if txs[n - 1] in pool then [] else [n - 1])
  }

  lemma {:induction false} AbsentMeans(txs: seq<Tx>, pool: seq<Tx>, n: nat)
    requires n <= |txs|
    ensures forall k: nat :: k in Absent(txs, pool, n) <==> k < n && txs[k] !in pool
    ensures forall i, j :: 0 <= i < j < |Absent(txs, pool, n)| ==> Absent(txs, pool, n)[i] < Absent(txs, pool, n)[j]
    ensures |Absent(txs, pool, n)| <= n
  {
    if n > 0 {
      AbsentMeans(txs, pool, n - 1);
      var front := Absent(txs, pool, n - 1);
      assert forall i :: 0 <= i < |front| ==> front[i] in front;
    }
  }

  /** `taken` holds, by short id, the transactions of the pool whose ids the block names. */
  ghost predicate Pooled(sid: ShortId, c: CompactBlock, pool: seq<Tx>, taken: map<nat, Tx>) {
    && (forall s :: s in taken ==> taken[s] in pool && IdOf(sid, c.header.hash, taken[s]) == s)
    && (forall t :: t in pool && IdOf(sid, c.header.hash, t) in c.shortIds ==> IdOf(sid, c.header.hash, t) in taken)
  }

  lemma NotTakenYet(sid: ShortId, c: CompactBlock, b: Block, front: seq<Tx>, last: Tx, taken: map<nat, Tx>)
    requires Unambiguous(sid, b, front + [last]) && c.header == b.header && Pooled(sid, c, front, taken)
    ensures IdOf(sid, c.header.hash, last) !in taken
  {
    var pool := front + [last];
    assert forall k :: 0 <= k < |front| ==> front[k] == pool[k] != pool[|front|] == last;
    assert last !in front && last in pool + b.body.txs;
    assert forall t :: t in front ==> t in pool + b.body.txs;
  }

  lemma UnambiguousPrefix(sid: ShortId, b: Block, front: seq<Tx>, last: Tx)
    requires Unambiguous(sid, b, front + [last])
    ensures Unambiguous(sid, b, front)
  {
    var pool := front + [last];
    assert forall t :: t in front + b.body.txs ==> t in pool + b.body.txs;
    assert forall i :: 0 <= i < |front| ==> pool[i] == front[i];
  }

  lemma {:induction false} PoolFinds(sid: ShortId, c: CompactBlock, b: Block, pool: seq<Tx>)
    requires Unambiguous(sid, b, pool) && c.header == b.header
    ensures TakeFromPool(sid, c, pool).Ok?
    ensures Pooled(sid, c, pool, TakeFromPool(sid, c, pool).value)
    decreases |pool|
  {
    hide Unambiguous;
    if pool != [] {
      var front, last := pool[..|pool| - 1], pool[|pool| - 1];
      assert pool == front + [last];
      UnambiguousPrefix(sid, b, front, last);
      PoolFinds(sid, c, b, front);
      NotTakenYet(sid, c, b, front, last, TakeFromPool(sid, c, front).value);
    }
  }

  /** For a block's own short ids, the pool supplies exactly the transactions it holds. */
  lemma PoolSupplies(sid: ShortId, c: CompactBlock, b: Block, pool: seq<Tx>, i: nat)
    requires Unambiguous(sid, b, pool) && c.header == b.header
    requires c.shortIds == Ids(sid, b.header.hash, b.body.txs) && i < |b.body.txs|
    requires TakeFromPool(sid, c, pool).Ok?
    ensures
      var taken := TakeFromPool(sid, c, pool).value;
      && (c.shortIds[i] in taken <==> b.body.txs[i] in pool)
      && (c.shortIds[i] in taken ==> taken[c.shortIds[i]] == b.body.txs[i])
  {
    PoolFinds(sid, c, b, pool);
    var t := b.body.txs[i];
    assert c.shortIds[i] == IdOf(sid, b.header.hash, t) && c.shortIds[i] in c.shortIds;
  }

  lemma {:induction false} FillRound(sid: ShortId, c: CompactBlock, b: Block, pool: seq<Tx>, given: map<nat, Tx>,
      n: nat)
    requires Unambiguous(sid, b, pool) && c.header == b.header
    requires c.shortIds == Ids(sid, b.header.hash, b.body.txs) && n <= |b.body.txs|
    requires TakeFromPool(sid, c, pool).Ok?
    requires given == map[] || forall k: nat :: k in given <==> k < |b.body.txs| && b.body.txs[k] !in pool
    requires forall k: nat :: k in given ==> k < |b.body.txs| && given[k] == b.body.txs[k]
    ensures
      var (txs, missing) := Fill(c.shortIds, given, TakeFromPool(sid, c, pool).value, n);
      && missing == (if given == map[] then Absent(b.body.txs, pool, n) else [])
      && (missing == [] ==> txs == b.body.txs[..n])
  {
    hide TakeFromPool, Unambiguous;
    if n > 0 {
      FillRound(sid, c, b, pool, given, n - 1);
      PoolSupplies(sid, c, b, pool, n - 1);
      assert b.body.txs[..n] == b.body.txs[..n - 1] + [b.body.txs[n - 1]];
    }
  }

  lemma {:induction false} AnswerTaken(sid: ShortId, c: CompactBlock, b: Block, indexes: seq<nat>)
    requires c.header == b.header && c.shortIds == Ids(sid, b.header.hash, b.body.txs)
    requires forall k :: 0 <= k < |indexes| ==> indexes[k] < |b.body.txs|
    requires forall i, j :: 0 <= i < j < |indexes| ==> indexes[i] != indexes[j]
    ensures
      var taken := TakeSupplied(sid, c, Answer(b, indexes));
      && taken.Ok?
      && (forall k: nat :: k in taken.value <==> k in indexes)
      && (forall k: nat :: k in taken.value ==> k < |b.body.txs| && taken.value[k] == b.body.txs[k])
  {
    hide TakeSupplied;
    if indexes == [] {
      NothingSupplied(sid, c);
      assert Answer(b, indexes) == [];
    } else {
      var front, last := indexes[..|indexes| - 1], indexes[|indexes| - 1];
      assert indexes == front + [last];
      assert forall i :: 0 <= i < |front| ==> front[i] == indexes[i];
      assert last !in front;
      AnswerTaken(sid, c, b, front);
      assert Answer(b, indexes) == Answer(b, front) + [Indexed(last, b.body.txs[last])];
      assert c.shortIds[last] == IdOf(sid, c.header.hash, b.body.txs[last]);
      OneMoreSupplied(sid, c, Answer(b, front), Indexed(last, b.body.txs[last]));
    }
  }

  lemma OneMoreSupplied(sid: ShortId, c: CompactBlock, items: seq<Indexed>, item: Indexed)
    requires TakeSupplied(sid, c, items).Ok? && item.index !in TakeSupplied(sid, c, items).value
    requires item.index < |c.shortIds| && IdOf(sid, c.header.hash, item.tx) == c.shortIds[item.index]
    ensures TakeSupplied(sid, c, items + [item]) == Ok(TakeSupplied(sid, c, items).value[item.index := item.tx])
  {
    assert (items + [item])[..|items|] == items;
  }

  /** Round one rebuilds the block, or reports in ascending order exactly the positions absent
      from the pool; the sender's answer passes every check; and round two on the same pool gives
      back the original header and body. */
  lemma TwoRoundRelay(sid: ShortId, limit: nat, b: Block, pool: seq<Tx>)
    requires FromBlock(sid, limit, b).Ok? && Unambiguous(sid, b, pool)
    ensures
      var c := FromBlock(sid, limit, b).value;
      var absent := Absent(b.body.txs, pool, |b.body.txs|);
      var whole := Complete(b.(nonce := 0));
      && Reconstructed(sid, limit, c, pool, []) == Ok(if absent == [] then whole else Missing(absent))
      && ServeTransactions(limit, Some(b), absent).Some?
      && (absent != [] ==>
           Reconstructed(sid, limit, c, pool, ServeTransactions(limit, Some(b), absent).value) == Ok(whole))
  {
    hide Fill, TakeFromPool, TakeSupplied, Absent, Unambiguous, Elements;
    var c := FromBlock(sid, limit, b).value;
    var absent := Absent(b.body.txs, pool, |b.body.txs|);
    AbsentMeans(b.body.txs, pool, |b.body.txs|);
    assert forall i :: 0 <= i < |absent| ==> absent[i] in absent;
    AllDifferentMeans(absent);
    PoolFinds(sid, c, b, pool);
    assert b.body.txs[..|b.body.txs|] == b.body.txs;
    FillRound(sid, c, b, pool, map[], |b.body.txs|);
    NothingSupplied(sid, c);
    AnswerTaken(sid, c, b, absent);
    if absent != [] {
      var given := TakeSupplied(sid, c, Answer(b, absent)).value;
      assert absent[0] in given;
      FillRound(sid, c, b, pool, given, |b.body.txs|);
    }
  }

  lemma NothingSupplied(sid: ShortId, c: CompactBlock)
    ensures TakeSupplied(sid, c, []) == Ok(map[])
  {
  }
}

/** Every transaction a reorganization disconnects is accounted for. */
module RollbackAccounting {
  import opened Paqus
  import opened ForkTree
  import opened CoreCache
  import opened ChainEngine
  import opened ChainSafety
  import M = Mempool

  /** A final status: a real location in `chain` when it holds the transaction, and requeued or
      in conflict when no block of it does. */
  ghost predicate Settled(chain: seq<Block>, status: Status, tx: Hash) {
    match status
    case Detected => false
    case Reconfirmed(h, block) => h < |chain| && chain[h].header.hash == block && Carries(chain[h], tx)
    case Requeued => forall i :: 0 <= i < |chain| ==> !Carries(chain[i], tx)
    case Conflict => forall i :: 0 <= i < |chain| ==> !Carries(chain[i], tx)
  }

  ghost predicate SettledAt(chain: seq<Block>, issues: map<IssueKey, Issue>, key: IssueKey) {
    key in issues && Settled(chain, issues[key].status, key.1)
  }

  /** From `before` to `after`, only issues of the given blocks were written, and none became
      unsettled. */
  ghost predicate Advances(chain: seq<Block>, before: map<IssueKey, Issue>, after: map<IssueKey, Issue>,
      blocks: set<Hash>)
  {
    && (forall k :: k in before ==> k in after && (k.0 !in blocks ==> after[k] == before[k]))
    && (forall k :: k in after ==> k in before || k.0 in blocks)
    && (forall k :: SettledAt(chain, before, k) ==> SettledAt(chain, after, k))
  }

  lemma RetrySettles(r: Rules, l: Ledger, rec: Recovery, key: IssueKey, issue: Issue, now: nat)
    ensures
      var after := Retry(r, l, rec, key, issue, now).issues;
      SettledAt(l.chain, after, key) && Advances(l.chain, rec.issues, after, {key.0})
  {
    var after := Retry(r, l, rec, key, issue, now).issues;
    assert after == rec.issues[key := after[key]];
    assert Settled(l.chain, after[key].status, key.1);
  }

  /** What one retry does to an issue and the pool. A transaction the chain holds is reconfirmed there
      and the pool left alone. Any other is requeued exactly when the pool then answers for it, and in
      conflict otherwise; if the pool did not answer for it before, requeued means that it is in the
      pool now, and a conflict leaves at most evictions behind. */
  ghost predicate Resolved(chain: seq<Block>, rec: Recovery, rec': Recovery, key: IssueKey, issue: Issue) {
    && key in rec'.issues && rec'.issues == rec.issues[key := rec'.issues[key]]
    && rec'.issues[key] ==
         issue.(status := rec'.issues[key].status, attempts := Min(issue.attempts + 1, U32_MAX))
    && var status, tx := rec'.issues[key].status, issue.tx;
    && if exists i :: 0 <= i < |chain| && Carries(chain[i], key.1)
       then status.Reconfirmed? && Settled(chain, status, key.1) && rec'.pool == rec.pool
       else
         && status == (if AnswersFor(rec'.pool, tx) then Requeued else Conflict)
         && rec'.pool.config == rec.pool.config
         && (Known(rec.pool, tx) ==> rec'.pool == rec.pool)
         && (status == Requeued && !Known(rec.pool, tx) ==> Joined(rec.pool, rec'.pool, tx))
         && (status == Conflict ==> Thinned(rec.pool, rec'.pool))
  }

  /** The pool holds the transaction or one with its signer state. */
  predicate Known(p: M.Pool, tx: Tx) {
    tx.hash in p.txs || (tx.signer, tx.lastState) in p.bySignerState
  }

  /** The pool holds the transaction, or what kept it out is only that it knew one like it. */
  predicate AnswersFor(p: M.Pool, tx: Tx) {
    tx.size <= p.config.maxBytes && tx.minerOutputs <= 1 && Known(p, tx)
  }

  /** Every entry of `q` is one of `p`. */
  ghost predicate Thinned(p: M.Pool, q: M.Pool) {
    forall h :: h in q.txs ==> h in p.txs && q.txs[h] == p.txs[h]
  }

  /** `q` holds exactly `tx` and some entries of `p`. */
  ghost predicate Joined(p: M.Pool, q: M.Pool, tx: Tx) {
    && tx.hash in q.txs && q.txs[tx.hash] == tx
    && (tx.signer, tx.lastState) in q.bySignerState && q.bySignerState[(tx.signer, tx.lastState)] == tx.hash
    && forall h :: h in q.txs && h != tx.hash ==> h in p.txs && q.txs[h] == p.txs[h]
  }

  lemma InsertResolves(r: Rules, p: M.Pool, l: Ledger, tx: Tx, now: nat)
    ensures
      var (q, result) := M.Insert(r, p, l, tx, now);
      && (result.Ok? || result.error == M.DuplicateTransaction <==> AnswersFor(q, tx))
      && q.config == p.config
      && (Known(p, tx) ==> q == p)
      && (result.Ok? ==> Joined(p, q, tx))
      && (result.Err? ==> Thinned(p, q))
      && (result == Err(M.DuplicateTransaction) ==> Known(p, tx))
  {
    hide M.HasRoom, M.ApplyAll, M.PendingOrder, M.CoinTaken, M.EvictionOrder, M.Evict, M.Evictions;
    var (q, result) := M.Insert(r, p, l, tx, now);
    var n := M.InsertDropsThenAdds(r, p, l, tx, now);
    M.RemoveAllExact(p, M.Hashes(M.EvictionOrder(p)[..n]));
    M.RemoveAllKeepsConfig(p, M.Hashes(M.EvictionOrder(p)[..n]));
    if tx.size <= p.config.maxBytes && tx.minerOutputs <= 1 {
      M.HeldIff(r, p, l, tx, now);
    }
  }

  /** Every retry is resolved in that sense. */
  lemma RetryResolves(r: Rules, l: Ledger, rec: Recovery, key: IssueKey, issue: Issue, now: nat)
    ensures Resolved(l.chain, rec, Retry(r, l, rec, key, issue, now), key, issue)
  {
    hide Carries, AnswersFor, Joined, Thinned, Known, M.Insert;
    var rec' := Retry(r, l, rec, key, issue, now);
    InsertResolves(r, rec.pool, l, issue.tx, now);
    assert rec'.issues == rec.issues[key := rec'.issues[key]];
  }

  /** On a consistent pool without colliding hashes: a transaction the chain does not hold is requeued
      exactly when it may enter the pool at all and its signer state is taken there afterwards. */
  lemma RequeuedIffTaken(r: Rules, l: Ledger, rec: Recovery, key: IssueKey, issue: Issue, now: nat)
    requires M.Consistent(rec.pool) && forall i :: 0 <= i < |l.chain| ==> !Carries(l.chain[i], key.1)
    requires issue.tx.hash in rec.pool.txs ==> rec.pool.txs[issue.tx.hash] == issue.tx
    ensures
      var rec', tx := Retry(r, l, rec, key, issue, now), issue.tx;
      && M.Consistent(rec'.pool)
      && (rec'.issues[key].status == Requeued <==>
           && tx.size <= rec.pool.config.maxBytes && tx.minerOutputs <= 1
           && (tx.signer, tx.lastState) in rec'.pool.bySignerState)
      && (rec'.issues[key].status != Requeued ==> rec'.issues[key].status == Conflict)
      && (rec'.issues[key].status == Requeued && (tx.signer, tx.lastState) !in rec.pool.bySignerState ==>
           tx.hash in rec'.pool.txs && rec'.pool.txs[tx.hash] == tx)
  {
    hide M.Insert, M.CoinsAgree, M.TotalSize, M.WithinLimits, Carries;
    RetryResolves(r, l, rec, key, issue, now);
    M.InsertKeepsConsistent(r, rec.pool, l, issue.tx, now);
    var p := rec.pool;
    assert issue.tx.hash in p.txs ==> (issue.tx.signer, issue.tx.lastState) in p.bySignerState;
  }

  // ---- Step by step ----

  /** The issue taken up for the `j`-th transaction of `b`: the stored one, or a new one that names the
      transaction, its place and the time. */
  ghost predicate TakenUp(issues: map<IssueKey, Issue>, b: Block, j: nat, now: nat, issue: Issue)
    requires j < |b.body.txs|
  {
    var key := (b.header.hash, b.body.txs[j].hash);
    if key in issues then issue == issues[key] else
      && issue.tx == b.body.txs[j] && issue.blockHeight == b.header.height && issue.blockHash == b.header.hash
      && issue.index == j && issue.detectedAt == now && issue.status == Detected && issue.attempts == 0
  }

  ghost predicate TxStep(chain: seq<Block>, b: Block, j: nat, now: nat, rec: Recovery, rec': Recovery)
    requires j < |b.body.txs|
  {
    exists issue ::
      && TakenUp(rec.issues, b, j, now, issue)
      && Resolved(chain, rec, rec', (b.header.hash, b.body.txs[j].hash), issue)
  }

  /** `stages` are what the recovery of `b` went through from transaction `i` on. */
  ghost predicate TxTrace(chain: seq<Block>, b: Block, i: nat, now: nat, stages: seq<Recovery>) {
    && stages != [] && i + |stages| - 1 <= |b.body.txs|
    && forall k, m :: 0 <= k && m == k + 1 < |stages| ==> TxStep(chain, b, i + k, now, stages[k], stages[m])
  }

  lemma TraceOne(chain: seq<Block>, b: Block, i: nat, now: nat, rec: Recovery, rest: seq<Recovery>)
    requires i < |b.body.txs| && TxTrace(chain, b, i + 1, now, rest) && TxStep(chain, b, i, now, rec, rest[0])
    ensures TxTrace(chain, b, i, now, [rec] + rest)
  {
    hide TxStep;
    var all := [rec] + rest;
    forall k, m | 0 <= k && m == k + 1 < |all| ensures TxStep(chain, b, i + k, now, all[k], all[m]) {
      if k > 0 { assert TxStep(chain, b, i + 1 + (k - 1), now, rest[k - 1], rest[m - 1]); }
    }
  }

  /** Recovering a block goes through its transactions one by one, each resolved at its own step on the
      pool and the issues the ones before it left, up to the end or the first transaction whose position
      does not fit or whose proof fails. */
  lemma {:induction false} RecoverTxsTraced(r: Rules, l: Ledger, rec: Recovery, b: Block, i: nat, now: nat)
    returns (stages: seq<Recovery>)
    requires i <= |b.body.txs|
    ensures TxTrace(l.chain, b, i, now, stages)
    ensures
      var (after, outcome) := RecoverTxs(r, l, rec, b, i, now);
      var j := i + |stages| - 1;
      && stages[0] == rec && stages[|stages| - 1] == after
      && (outcome.Done? <==> j == |b.body.txs|)
      && (outcome == Failed(TransactionIndexOverflow) <==> j < |b.body.txs| && j > U32_MAX)
      && (outcome == Failed(ProofError) <==> j < |b.body.txs| && j <= U32_MAX && !r.proofOk(b, j))
    decreases |b.body.txs| - i
  {
    hide Retry, TxStep;
    if i < |b.body.txs| && i <= U32_MAX && r.proofOk(b, i) {
      var key, issue := (b.header.hash, b.body.txs[i].hash), Opened(rec, b, i, now);
      var next := Retry(r, l, rec, key, issue, now);
      RetryIsStep(r, l, rec, b, i, now);
      var rest := RecoverTxsTraced(r, l, next, b, i + 1, now);
      TraceOne(l.chain, b, i, now, rec, rest);
      stages := [rec] + rest;
    } else {
      stages := [rec];
    }
  }

  lemma RetryIsStep(r: Rules, l: Ledger, rec: Recovery, b: Block, i: nat, now: nat)
    requires i < |b.body.txs|
    ensures
      var key := (b.header.hash, b.body.txs[i].hash);
      TxStep(l.chain, b, i, now, rec, Retry(r, l, rec, key, Opened(rec, b, i, now), now))
  {
    hide Retry, Resolved;
    var issue := Opened(rec, b, i, now);
    RetryResolves(r, l, rec, (b.header.hash, b.body.txs[i].hash), issue, now);
    assert TakenUp(rec.issues, b, i, now, issue);
  }

  /** What a transaction's own step decided stands at the end, unless the block repeats it. */
  lemma {:induction false} OwnStepStands(chain: seq<Block>, b: Block, i: nat, now: nat, stages: seq<Recovery>, k: nat)
    requires TxTrace(chain, b, i, now, stages) && k + 1 < |stages|
    requires forall j :: i + k < j < i + |stages| - 1 ==> b.body.txs[j].hash != b.body.txs[i + k].hash
    ensures
      var key := (b.header.hash, b.body.txs[i + k].hash);
      var end := stages[|stages| - 1].issues;
      key in end && key in stages[k + 1].issues && end[key] == stages[k + 1].issues[key]
    decreases |stages|
  {
    hide Settled, AnswersFor, Joined, Thinned, Known;
    var last := |stages| - 1;
    assert TxStep(chain, b, i + (last - 1), now, stages[last - 1], stages[last]);
    if k + 1 < last {
      OwnStepStands(chain, b, i, now, stages[..last], k);
    }
  }

  /** The transactions of one block were all resolved. */
  ghost predicate BlockStep(chain: seq<Block>, b: Block, now: nat, rec: Recovery, rec': Recovery) {
    exists stages ::
      && TxTrace(chain, b, 0, now, stages) && |stages| == |b.body.txs| + 1
      && stages[0] == rec && stages[|stages| - 1] == rec'
  }

  /** `stages` are what a complete recovery of `blocks` went through: blocks on the chain are passed
      over, the others resolved. */
  ghost predicate BlockTrace(chain: seq<Block>, blocks: seq<Block>, now: nat, stages: seq<Recovery>) {
    && |stages| == |blocks| + 1
    && forall k, m :: 0 <= k && m == k + 1 < |stages| ==>
         if OnChain(chain, blocks[k].header.hash) then stages[m] == stages[k]
         else BlockStep(chain, blocks[k], now, stages[k], stages[m])
  }

  lemma {:induction false} RecoverBlocksTraced(r: Rules, l: Ledger, rec: Recovery, blocks: seq<Block>, now: nat)
    returns (stages: seq<Recovery>)
    requires RecoverBlocks(r, l, rec, blocks, now).1.Done?
    ensures BlockTrace(l.chain, blocks, now, stages)
    ensures stages[0] == rec && stages[|stages| - 1] == RecoverBlocks(r, l, rec, blocks, now).0
    decreases |blocks|
  {
    hide RecoverTxs, OnChain, TxTrace;
    if blocks == [] {
      stages := [rec];
    } else {
      var b, rest := blocks[0], blocks[1..];
      var next := rec;
      if !OnChain(l.chain, b.header.hash) {
        var inner := RecoverTxsTraced(r, l, rec, b, 0, now);
        next := RecoverTxs(r, l, rec, b, 0, now).0;
        assert BlockStep(l.chain, b, now, rec, next);
      }
      var later := RecoverBlocksTraced(r, l, next, rest, now);
      stages := [rec] + later;
      TraceBlock(l.chain, blocks, now, rec, later);
    }
  }

  lemma TraceBlock(chain: seq<Block>, blocks: seq<Block>, now: nat, rec: Recovery, later: seq<Recovery>)
    requires blocks != [] && BlockTrace(chain, blocks[1..], now, later)
    requires if OnChain(chain, blocks[0].header.hash) then later[0] == rec
      else BlockStep(chain, blocks[0], now, rec, later[0])
    ensures BlockTrace(chain, blocks, now, [rec] + later)
  {
    hide BlockStep, OnChain;
    var all := [rec] + later;
    forall k, m | 0 <= k && m == k + 1 < |all|
      ensures if OnChain(chain, blocks[k].header.hash) then all[m] == all[k]
        else BlockStep(chain, blocks[k], now, all[k], all[m])
    {
      if k > 0 { assert blocks[k] == blocks[1..][k - 1] && all[k] == later[k - 1] && all[m] == later[m - 1]; }
    }
  }

  ghost predicate TxsSettled(chain: seq<Block>, issues: map<IssueKey, Issue>, b: Block, i: nat) {
    forall j :: i <= j < |b.body.txs| ==> SettledAt(chain, issues, (b.header.hash, b.body.txs[j].hash))
  }

  lemma {:induction false} RecoverTxsSettles(r: Rules, l: Ledger, rec: Recovery, b: Block, i: nat, now: nat)
    requires i <= |b.body.txs|
    ensures
      var (after, outcome) := RecoverTxs(r, l, rec, b, i, now);
      && Advances(l.chain, rec.issues, after.issues, {b.header.hash})
      && (outcome.Done? ==> TxsSettled(l.chain, after.issues, b, i))
    decreases |b.body.txs| - i
  {
    hide Retry, Settled;
    if i < |b.body.txs| && i <= U32_MAX && r.proofOk(b, i) {
      var key := (b.header.hash, b.body.txs[i].hash);
      var issue := Opened(rec, b, i, now);
      RetrySettles(r, l, rec, key, issue, now);
      RecoverTxsSettles(r, l, Retry(r, l, rec, key, issue, now), b, i + 1, now);
    }
  }

  function Dropped(chain: seq<Block>, blocks: seq<Block>): set<Hash> {
    set i | 0 <= i < |blocks| && !OnChain(chain, blocks[i].header.hash) :: blocks[i].header.hash
  }

  ghost predicate BlocksSettled(chain: seq<Block>, issues: map<IssueKey, Issue>, blocks: seq<Block>) {
    forall i :: 0 <= i < |blocks| && !OnChain(chain, blocks[i].header.hash) ==>
      TxsSettled(chain, issues, blocks[i], 0)
  }

  lemma {:induction false} RecoverBlocksSettles(r: Rules, l: Ledger, rec: Recovery, blocks: seq<Block>, now: nat)
    ensures
      var (after, outcome) := RecoverBlocks(r, l, rec, blocks, now);
      && Advances(l.chain, rec.issues, after.issues, Dropped(l.chain, blocks))
      && (outcome.Done? ==> BlocksSettled(l.chain, after.issues, blocks))
    decreases |blocks|
  {
    hide RecoverTxs, Settled;
    if blocks != [] {
      var b, rest := blocks[0], blocks[1..];
      assert forall i :: 1 <= i < |blocks| ==> blocks[i] == rest[i - 1];
      if OnChain(l.chain, b.header.hash) {
        RecoverBlocksSettles(r, l, rec, rest, now);
        DroppedSplits(l.chain, blocks);
      } else {
        RecoverTxsSettles(r, l, rec, b, 0, now);
        var (next, outcome) := RecoverTxs(r, l, rec, b, 0, now);
        RecoverBlocksSettles(r, l, next, rest, now);
        DroppedSplits(l.chain, blocks);
      }
    }
  }

  lemma DroppedSplits(chain: seq<Block>, blocks: seq<Block>)
    requires blocks != []
    ensures Dropped(chain, blocks) == Dropped(chain, blocks[1..]) +
      if OnChain(chain, blocks[0].header.hash) then {} else {blocks[0].header.hash}
  {
    var rest := blocks[1..];
    forall h | h in Dropped(chain, blocks)
      ensures h in Dropped(chain, rest) || (!OnChain(chain, blocks[0].header.hash) && h == blocks[0].header.hash)
    {
      var i :| 0 <= i < |blocks| && !OnChain(chain, blocks[i].header.hash) && blocks[i].header.hash == h;
      if i > 0 { assert rest[i - 1] == blocks[i]; }
    }
    forall h | h in Dropped(chain, rest) ensures h in Dropped(chain, blocks) {
      var i :| 0 <= i < |rest| && !OnChain(chain, rest[i].header.hash) && rest[i].header.hash == h;
      assert blocks[i + 1] == rest[i];
    }
  }

  lemma SharedIsSymmetric(c: seq<Block>, d: seq<Block>)
    ensures Shared(c, d) == Shared(d, c)
  {
    SharedAtLeast(d, c, Shared(c, d));
    SharedAtLeast(c, d, Shared(d, c));
  }

  /** The disconnected blocks are exactly the old chain above the highest common ancestor. */
  lemma DisconnectedAboveAncestor(r: Rules, s: Core, best: Hash, i: nat)
    requires Rooted(r, s) && s.ledger.chain != [] && best in s.tree && i < |s.ledger.chain|
    ensures
      var new' := ChainTo(s.tree, best);
      !OnChain(new', s.ledger.chain[i].header.hash) <==> Shared(s.ledger.chain, new') <= i
  {
    SharedIsSymmetric(s.ledger.chain, ChainTo(s.tree, best));
    SharedIffOnChain(s.tree, best, TipHash(s.ledger), i);
  }

  /** What a completed reorganization did: it moved to the best branch and recovered the blocks
      of the old chain. */
  lemma ReorgRecovers(r: Rules, s: Core, now: nat) returns (best: Hash)
    requires Sound(r, s) && s.ledger.chain != [] && Reorg(r, s, now).1.Done?
    ensures BestTip(s.tree) == Some(best) && best in s.tree
    ensures
      var s' := Reorg(r, s, now).0;
      && s'.ledger.chain == ChainTo(s.tree, best)
      && var (rec, outcome) := RecoverBlocks(r, s'.ledger, Recovery(s.pool, s.disk.issues), s.ledger.chain, now);
      && outcome.Done? && s'.disk.issues == rec.issues && s'.pool == rec.pool
  {
    hide ChainTo, CommonAncestor, BranchFrom, WellFormed, Faithful, Switch, RecoverBlocks, Shared, LedgerForTip,
      Headers;
    best := BestTip(s.tree).value;
    ReorgSetting(r, s, best);
    var noted := NoteContext(s, best, CommonAncestor(s.tree, TipHash(s.ledger), best).value);
    SwitchRecovers(r, noted, best, now);
    BestLedgerIsSound(r, noted, best, LedgerForTip(r, noted, best).value);
  }

  /** After a completed reorganization every transaction of a disconnected block has a stored
      issue with a final status, and no other issue was touched. */
  lemma ReorgAccountsForAll(r: Rules, s: Core, now: nat)
    requires Sound(r, s) && s.ledger.chain != [] && Reorg(r, s, now).1.Done?
    ensures
      var s' := Reorg(r, s, now).0;
      var n := Shared(s.ledger.chain, s'.ledger.chain);
      && (forall i, j :: n <= i < |s.ledger.chain| && 0 <= j < |s.ledger.chain[i].body.txs| ==>
           SettledAt(s'.ledger.chain, s'.disk.issues,
             (s.ledger.chain[i].header.hash, s.ledger.chain[i].body.txs[j].hash)))
      && Advances(s'.ledger.chain, s.disk.issues, s'.disk.issues, Dropped(s'.ledger.chain, s.ledger.chain))
      && Dropped(s'.ledger.chain, s.ledger.chain) == BlockHashes(s.ledger.chain[n..])
  {
    hide Reorg, RecoverBlocks, Advances, Faithful, WellFormed, ChainTo, SettledAt, Dropped, BlockHashes, Shared,
      OnChain, BestTip;
    var best := ReorgRecovers(r, s, now);
    var s' := Reorg(r, s, now).0;
    RecoverBlocksSettles(r, s'.ledger, Recovery(s.pool, s.disk.issues), s.ledger.chain, now);
    DroppedIsTail(r, s, best);
    forall i, j |
      && Shared(s.ledger.chain, s'.ledger.chain) <= i < |s.ledger.chain|
      && 0 <= j < |s.ledger.chain[i].body.txs|
      ensures SettledAt(s'.ledger.chain, s'.disk.issues,
        (s.ledger.chain[i].header.hash, s.ledger.chain[i].body.txs[j].hash))
    {
      DisconnectedAboveAncestor(r, s, best, i);
      assert TxsSettled(s'.ledger.chain, s'.disk.issues, s.ledger.chain[i], 0);
    }
  }

  /** What a completed reorganization does to the pool and the issues is a recovery of the old chain's
      blocks, step by step; it notes both branches and counts itself. */
  lemma ReorgTraced(r: Rules, s: Core, now: nat) returns (stages: seq<Recovery>)
    requires Sound(r, s) && s.ledger.chain != [] && Reorg(r, s, now).1.Done?
    ensures
      var s' := Reorg(r, s, now).0;
      && BlockTrace(s'.ledger.chain, s.ledger.chain, now, stages)
      && stages[0] == Recovery(s.pool, s.disk.issues)
      && stages[|stages| - 1] == Recovery(s'.pool, s'.disk.issues)
  {
    hide Reorg, RecoverBlocks, BlockTrace, Faithful, WellFormed, ChainTo, BestTip;
    var best := ReorgRecovers(r, s, now);
    stages := RecoverBlocksTraced(r, Reorg(r, s, now).0.ledger, Recovery(s.pool, s.disk.issues), s.ledger.chain, now);
  }

  /** A completed reorganization files the headers of the branch it left and of the one it took, with
      the block they parted at, and counts itself. */
  lemma ReorgNoted(r: Rules, s: Core, now: nat)
    requires Sound(r, s) && s.ledger.chain != [] && Reorg(r, s, now).1.Done?
    ensures
      var s' := Reorg(r, s, now).0;
      var n := Shared(s.ledger.chain, s'.ledger.chain);
      && n > 0 && s'.reorgs == Min(s.reorgs + 1, U64_MAX)
      && exists c :: c in s'.disk.contexts && s'.disk.contexts == s.disk.contexts + {c}
           && |c.losing| == |s.ledger.chain| && |c.winning| == |s'.ledger.chain|
           && (forall i :: 0 <= i < |c.losing| ==> c.losing[i] == s.ledger.chain[i].header)
           && (forall i :: 0 <= i < |c.winning| ==> c.winning[i] == s'.ledger.chain[i].header)
           && c.ancestor == s.ledger.chain[n - 1].header.hash
  {
    hide ChainTo, CommonAncestor, BranchFrom, WellFormed, Faithful, RecoverBlocks, Shared, Replay, BlockHashes,
      BlockWithHash, FromChain, Prune, BestTip;
    var best := BestTip(s.tree).value;
    ReorgSetting(r, s, best);
    var ancestor := CommonAncestor(s.tree, TipHash(s.ledger), best).value;
    var noted := NoteContext(s, best, ancestor);
    var l := LedgerForTip(r, noted, best).value;
    BestLedgerIsSound(r, noted, best, l);
    var c := ProofContext(Headers(s.ledger.chain), Headers(l.chain), ancestor);
    var s' := Reorg(r, s, now).0;
    assert s'.ledger == l;
    assert c in s'.disk.contexts;
  }

  lemma SwitchRecovers(r: Rules, s: Core, best: Hash, now: nat)
    requires Switch(r, s, best, now).1.Done?
    ensures
      && LedgerForTip(r, s, best).Ok?
      && var l := LedgerForTip(r, s, best).value;
      && var (rec, outcome) := RecoverBlocks(r, l, Recovery(s.pool, s.disk.issues), s.ledger.chain, now);
      && outcome.Done?
      && Switch(r, s, best, now).0.ledger == l
      && Switch(r, s, best, now).0.disk.issues == rec.issues
      && Switch(r, s, best, now).0.pool == rec.pool
  {
    hide RecoverBlocks, LedgerForTip, Prune, FromChain, BestTip;
    var l := LedgerForTip(r, s, best).value;
    assert Recovery(SwitchTo(s, l).pool, SwitchTo(s, l).disk.issues) == Recovery(s.pool, s.disk.issues);
    assert SwitchTo(s, l).ledger == l;
    RecoverBlocksOutcome(r, l, Recovery(s.pool, s.disk.issues), s.ledger.chain, now);
  }


  lemma DroppedIsTail(r: Rules, s: Core, best: Hash)
    requires Rooted(r, s) && s.ledger.chain != [] && best in s.tree
    ensures
      var new' := ChainTo(s.tree, best);
      Dropped(new', s.ledger.chain) == BlockHashes(s.ledger.chain[Shared(s.ledger.chain, new')..])
  {
    hide ChainTo, Rooted, Shared, OnChain, Dropped, BlockHashes;
    var chain, new' := s.ledger.chain, ChainTo(s.tree, best);
    forall i | 0 <= i < |chain|
      ensures !OnChain(new', chain[i].header.hash) <==> Shared(chain, new') <= i
    {
      DisconnectedAboveAncestor(r, s, best, i);
    }
    TailDropped(new', chain, Shared(chain, new'));
  }

  lemma TailDropped(new': seq<Block>, chain: seq<Block>, n: nat)
    requires n <= |chain|
    requires forall i :: 0 <= i < |chain| ==> (!OnChain(new', chain[i].header.hash) <==> n <= i)
    ensures Dropped(new', chain) == BlockHashes(chain[n..])
  {
    hide OnChain;
    var tail := chain[n..];
    assert forall i :: 0 <= i < |tail| ==> tail[i] == chain[n + i];
    forall h | h in Dropped(new', chain) ensures h in BlockHashes(tail) {
      var i :| 0 <= i < |chain| && !OnChain(new', chain[i].header.hash) && chain[i].header.hash == h;
      assert tail[i - n] == chain[i];
    }
  }

  /** Whether a status that was true of `old'` stays true of `new'`, of which the first `n` blocks are
      shared: a location must be among them, and a transaction found nowhere must not lie in
      the rest. */
  ghost predicate Lasts(status: Status, tx: Hash, new': seq<Block>, n: nat) {
    match status
    case Detected => false
    case Reconfirmed(h, _) => h < n
    case Requeued => forall i :: n <= i < |new'| ==> !Carries(new'[i], tx)
    case Conflict => forall i :: n <= i < |new'| ==> !Carries(new'[i], tx)
  }

  lemma SettledLastsIff(old': seq<Block>, new': seq<Block>, n: nat, status: Status, tx: Hash)
    requires n <= |old'| && n <= |new'| && old'[..n] == new'[..n] && Settled(old', status, tx)
    requires forall i :: n <= i < |old'| ==> !OnChain(new', old'[i].header.hash)
    ensures Settled(new', status, tx) <==> Lasts(status, tx, new', n)
  {
    hide Carries;
    assert forall i :: 0 <= i < n ==> old'[i] == old'[..n][i] == new'[..n][i] == new'[i];
  }

  /** Issues of blocks that are not disconnected now, left over from earlier forks: the
      reorganization does not look at them. Such an issue stays settled exactly when its recorded
      location is below the fork, or its transaction is in none of the newly connected blocks. */
  lemma OtherIssueLastsIff(r: Rules, s: Core, now: nat, key: IssueKey)
    requires Sound(r, s) && s.ledger.chain != [] && Reorg(r, s, now).1.Done?
    requires SettledAt(s.ledger.chain, s.disk.issues, key)
    requires
      var new' := ChainTo(s.tree, BestTip(s.tree).value);
      key.0 !in BlockHashes(s.ledger.chain[Shared(s.ledger.chain, new')..])
    ensures
      var new' := ChainTo(s.tree, BestTip(s.tree).value);
      SettledAt(Reorg(r, s, now).0.ledger.chain, Reorg(r, s, now).0.disk.issues, key) <==>
        Lasts(s.disk.issues[key].status, key.1, new', Shared(s.ledger.chain, new'))
  {
    hide Reorg, RecoverBlocks, Faithful, WellFormed, ChainTo, Settled, Lasts, Dropped, BlockHashes, Shared, OnChain,
      BestTip;
    var best := ReorgRecovers(r, s, now);
    var chain, new' := s.ledger.chain, ChainTo(s.tree, best);
    ReorgAccountsForAll(r, s, now);
    forall i | Shared(chain, new') <= i < |chain| ensures !OnChain(new', chain[i].header.hash) {
      DisconnectedAboveAncestor(r, s, best, i);
    }
    SettledLastsIff(chain, new', Shared(chain, new'), s.disk.issues[key].status, key.1);
  }

  // ---- Extending the chain ----

  /** What confirming `b` does to an issue: it is reconfirmed there if it names a transaction of the
      block and was not reconfirmed before, and is left alone otherwise. */
  ghost predicate Confirmed(b: Block, before: map<IssueKey, Issue>, after: map<IssueKey, Issue>) {
    && after.Keys == before.Keys
    && forall k :: k in before ==>
         if Carries(b, k.1) && !before[k].status.Reconfirmed?
         then after[k] == before[k].(status := Reconfirmed(b.header.height, b.header.hash))
         else after[k] == before[k]
  }

  lemma ExtensionConfirms(r: Rules, s: Core, b: Block, staged: Ledger)
    ensures
      var s' := Extend(r, s, b, staged);
      && s'.pool.txs == (map h | h in s.pool.txs && !Carries(b, h) :: s.pool.txs[h])
      && Confirmed(b, s.disk.issues, s'.disk.issues)
      && s'.disk.contexts == s.disk.contexts && s'.reorgs == s.reorgs
  {
    hide M.ConfirmAll, Prune, InsertBlock, BlockHashes, BlockWithHash, Carries;
    M.ConfirmExact(s.pool, b);
  }

  /** A reorganization that does not go through leaves pool and issues alone. */
  lemma StayedPut(r: Rules, s: Core, best: Hash, now: nat)
    requires Sound(r, s) && s.ledger.chain != [] && BestTip(s.tree) == Some(best)
    requires ChainTo(s.tree, best) != s.ledger.chain && Reorg(r, s, now).0.ledger.chain == s.ledger.chain
    ensures
      var s' := Reorg(r, s, now).0;
      s'.pool == s.pool && s'.disk.issues == s.disk.issues && s'.reorgs == s.reorgs
  {
    hide ChainTo, CommonAncestor, BranchFrom, WellFormed, Faithful, BestTip, Recover, Shared, Headers;
    ReorgChain(r, s, best, now);
    ReorgSetting(r, s, best);
  }

  /** A step that extends the active chain leaves no transaction of the block in the pool and marks
      exactly the open issues of its transactions; one that leaves the chain where it is changes
      neither. */
  lemma StepConfirms(r: Rules, s: Core, b: Block, now: nat)
    requires Lawful(r) && Sound(r, s) && s.ledger.chain != []
    ensures
      var s' := KnownParent(r, s, b, now).0;
      && (s'.ledger.chain == s.ledger.chain + [b] ==>
           && s'.pool.txs == (map h | h in s.pool.txs && !Carries(b, h) :: s.pool.txs[h])
           && Confirmed(b, s.disk.issues, s'.disk.issues)
           && s'.disk.contexts == s.disk.contexts && s'.reorgs == s.reorgs)
      && (s'.ledger.chain == s.ledger.chain ==>
           s'.pool == s.pool && s'.disk.issues == s.disk.issues && s'.reorgs == s.reorgs)
  {
    hide ChainTo, CommonAncestor, WellFormed, Matches, Replay, BestTip, Reorg, Extend, CheckState, CheckHeader,
      Insert, LedgerForTip, Lawful, Carries, Confirmed, CrossesFinality;
    ChecksFail(r, s, b);
    if CheckHeader(r, s, b).None? && CheckState(r, s, b).Ok? && TakesOver(s, b) {
      var t := Insert(s.tree, b).value;
      AcceptedGrows(r, s, b, t);
      if ExtendsTip(s.ledger, b) {
        var staged := CheckState(r, s, b).value.value;
        ExtendKeepsSound(r, s, b, t, staged);
        ExtensionConfirms(r, s.(tree := t), b, staged);
      } else {
        var grown := s.(tree := t);
        ReorgChain(r, grown, b.header.hash, now);
        BranchDiffers(r, s, b, t);
        if Reorg(r, grown, now).0.ledger.chain == s.ledger.chain {
          StayedPut(r, grown, b.header.hash, now);
        }
      }
    }
  }

  lemma BranchDiffers(r: Rules, s: Core, b: Block, t: Tree)
    requires Lawful(r) && Sound(r, s) && s.ledger.chain != [] && CheckHeader(r, s, b).None?
    requires Insert(s.tree, b) == Ok(t) && !ExtendsTip(s.ledger, b)
    ensures ChainTo(t, b.header.hash) != s.ledger.chain && ChainTo(t, b.header.hash) != s.ledger.chain + [b]
  {
    hide ChainTo, WellFormed, Faithful, Lawful, Insert;
    AcceptedGrows(r, s, b, t);
    ChainShape(t, b.header.hash);
    ChainShape(s.tree, TipHash(s.ledger));
    assert b.header.hash !in s.tree by { NotYetIn(s.tree, b); }
    ChainShape(s.tree, b.header.previous);
    EachLinked(s.tree, b.header.previous);
    var before := ChainTo(s.tree, b.header.previous);
    assert (before + [b])[..|before|] == before && (s.ledger.chain + [b])[..|s.ledger.chain|] == s.ledger.chain;
  }

  lemma NotYetIn(t: Tree, b: Block)
    requires Insert(t, b).Ok?
    ensures b.header.hash !in t
  {
  }
}

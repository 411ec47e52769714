/** The node as an object: block intake, the orphan buffer and fork switching, updating fields in
    place. Each method's effect is the corresponding function of `ChainEngine` or `OrphanPool`. */
module NodeObject {
  import opened Paqus
  import opened Ordering
  import opened ForkTree
  import opened CoreCache
  import opened ChainEngine
  import opened OrphanPool
  import M = Mempool
  import Safety = ChainSafety
  import Books = OrphanBookkeeping
  import Start = Startup
  import Restart
  import Roots = StateRoots
  import Asking = ParentRequests
  import Rollback = RollbackAccounting

  class Node {
    const rules: Rules
    var ledger: Ledger
    var mempool: M.Pool
    var storage: Disk
    var cache: Cache
    var forkChoice: Tree
    var genesisAccounts: State
    var orphanBlocks: map<Hash, Orphan>
    var orphanChildrenByParent: map<Hash, seq<Hash>>
    var missingParentRequests: seq<Hash>
    var missingParentRequestSet: set<Hash>
    var missingParentRetryAt: map<Hash, nat>
    var blockValidationFailures: nat
    var reorgsTotal: nat

    function Chain(): Core
      reads this
    {
      Core(ledger, forkChoice, cache, genesisAccounts, mempool, storage, reorgsTotal)
    }

    function Buffer(): Orphans
      reads this
    {
      Orphans(orphanBlocks, orphanChildrenByParent)
    }

    function Queue(): Requests
      reads this
    {
      Requests(missingParentRequests, missingParentRequestSet, missingParentRetryAt)
    }

    function Contents(): NodeState
      reads this
    {
      NodeState(Chain(), Buffer(), Queue(), blockValidationFailures)
    }

    /** Builds the cache and fork choice from the stored chain, block by block. A stored ledger
        that is the replay of an upright chain over the genesis block gives a sound node at its
        best tip. */
    static method WithGenesisAccounts(rules: Rules, ledger: Ledger, storage: Disk, genesis: State, config: M.Config)
      returns (result: Result<Node, NodeError>)
      ensures result.Ok? <==> Start.Grow(ledger.chain).Ok?
      ensures result.Err? ==> result.error == ForkChoiceError(Start.Grow(ledger.chain).error)
      ensures result.Ok? ==>
        && fresh(result.value) && result.value.rules == rules && Books.Kept(result.value.Contents())
        && result.value.Chain() ==
           Core(ledger, Start.Grow(ledger.chain).value, FromChain(ledger.chain), genesis, M.Empty(config), storage, 0)
      ensures Start.Startable(rules, ledger, genesis, storage) ==>
        result.Ok? && Safety.Sound(rules, result.value.Chain()) && Safety.InSync(result.value.Chain())
    {
      var cache := CacheFromLedger(ledger);
      var tree: Tree := map[];
      if Start.Startable(rules, ledger, genesis, storage) { Start.UprightGrows(ledger.chain); }
      for i := 0 to |ledger.chain|
        invariant Start.Grow(ledger.chain[..i]) == Ok(tree)
      {
        assert ledger.chain[..i + 1][..i] == ledger.chain[..i];
        var grown := Insert(tree, ledger.chain[i]);
        if grown.Err? {
          Start.GrowStops(ledger.chain, i + 1);
          return Err(ForkChoiceError(grown.error));
        }
        tree := grown.value;
      }
      assert ledger.chain[..|ledger.chain|] == ledger.chain;
      var core := Core(ledger, tree, cache, genesis, M.Empty(config), storage, 0);
      if Start.Startable(rules, ledger, genesis, storage) { Start.StartIsSound(rules, ledger, genesis, core); }
      var node := new Node(rules, core);
      result := Ok(node);
    }

    /** Opens a node on a stored ledger and brings fork choice back from the stored blocks. */
    static method InitOrLoad(rules: Rules, ledger: Ledger, storage: Disk, genesis: State, config: M.Config)
      returns (result: Result<Node, NodeError>)
      ensures result.Ok? <==> Start.Grow(ledger.chain).Ok?
      ensures result.Ok? ==>
        && fresh(result.value) && result.value.rules == rules && Books.Kept(result.value.Contents())
        && result.value.Chain() == Restart.Restarted(rules, ledger, genesis, storage, config)
    {
      hide Start.Grow, FromChain, Restart.IndexAll, Restart.StoredBlocks, Prune, Safety.Sound, Safety.Rooted,
        Start.Startable, Safety.InSync;
      result := WithGenesisAccounts(rules, ledger, storage, genesis, config);
      if result.Ok? {
        result.value.IndexStoredBlocks();
      }
    }

    constructor (rules: Rules, core: Core)
      ensures this.rules == rules
      ensures Contents() == NodeState(core, Orphans(map[], map[]), Requests([], {}, map[]), 0)
      ensures Books.Kept(Contents())
    {
      this.rules := rules;
      ledger, mempool, storage, cache := core.ledger, core.pool, core.disk, core.cache;
      forkChoice, genesisAccounts, reorgsTotal := core.tree, core.genesis, core.reorgs;
      orphanBlocks, orphanChildrenByParent := map[], map[];
      missingParentRequests, missingParentRequestSet, missingParentRetryAt := [], {}, map[];
      blockValidationFailures := 0;
    }

    // ---- Parent requests ----

    method QueueMissingParentRequestAt(hash: Hash, retryAt: nat)
      modifies this`missingParentRequests, this`missingParentRequestSet, this`missingParentRetryAt
      ensures Queue() == QueueAt(forkChoice, old(Queue()), hash, retryAt)
    {
      if hash in forkChoice {
        return;
      }
      if hash in missingParentRetryAt {
        missingParentRetryAt := missingParentRetryAt[hash := Min(missingParentRetryAt[hash], retryAt)];
      } else {
        missingParentRetryAt := missingParentRetryAt[hash := retryAt];
      }
      if hash !in missingParentRequestSet {
        missingParentRequestSet := missingParentRequestSet + {hash};
        missingParentRequests := missingParentRequests + [hash];
      }
    }

    method RetryMissingParentRequest(hash: Hash, now: nat)
      modifies this`missingParentRequests, this`missingParentRequestSet, this`missingParentRetryAt
      ensures Contents() == RetryRequest(old(Contents()), hash, now)
    {
      QueueMissingParentRequestAt(hash, SaturatingAdd(now, MISSING_PARENT_RETRY_SECS));
    }

    /** Hands out the due requests; both they and the ones left behind keep their order. */
    method DrainMissingParentRequests(now: nat) returns (ready: seq<Hash>)
      requires Books.Aligned(Queue())
      modifies this`missingParentRequests, this`missingParentRequestSet, this`missingParentRetryAt
      ensures (Queue(), ready) == Drain(old(Queue()), now)
      ensures Books.Aligned(Queue())
    {
      hide Books.Aligned, Keep, DueHashes, Drained;
      ghost var q := Queue();
      ghost var due := DueHashes(q, now);
      ghost var others := (set h | h in q.queue) - due;
      ghost var gone := {};
      ghost var i := 0;
      Books.DrainKeepsAligned(q, now);
      DrainEnds(q, now);
      ready := [];
      var pending := [];
      while missingParentRequests != []
        invariant 0 <= i <= |q.queue| && missingParentRequests == q.queue[i..]
        invariant ready == Keep(q.queue[..i], due) && pending == Keep(q.queue[..i], others)
        invariant missingParentRequestSet == q.queued - gone && missingParentRetryAt == q.retryAt - gone
        invariant gone == Drained(q.queue, i, due)
        decreases |missingParentRequests|
      {
        var hash := missingParentRequests[0];
        DrainStep(q, now, i);
        missingParentRequests := missingParentRequests[1..];
        var retryAt := if hash in missingParentRetryAt then missingParentRetryAt[hash] else 0;
        if retryAt <= now {
          missingParentRequestSet := missingParentRequestSet - {hash};
          missingParentRetryAt := missingParentRetryAt - {hash};
          ready := ready + [hash];
          gone := gone + {hash};
        } else {
          pending := pending + [hash];
        }
        i := i + 1;
      }
      assert i == |q.queue|;
      missingParentRequests := pending;
    }

    static ghost function Drained(queue: seq<Hash>, i: nat, due: set<Hash>): set<Hash>
      requires i <= |queue|
    {
      set h | h in queue[..i] && h in due
    }

    static lemma DrainEnds(q: Requests, now: nat)
      ensures
        var due := DueHashes(q, now);
        && Drained(q.queue, 0, due) == {} && Drained(q.queue, |q.queue|, due) == due
        && Keep(q.queue[..0], due) == [] && Keep(q.queue[..0], (set h | h in q.queue) - due) == []
        && q.queue[..|q.queue|] == q.queue
    {
    }

    static lemma DrainStep(q: Requests, now: nat, i: nat)
      requires Books.Aligned(q) && i < |q.queue|
      ensures
        var due := DueHashes(q, now);
        var others := (set h | h in q.queue) - due;
        var hash := q.queue[i];
        && hash !in Drained(q.queue, i, due)
        && hash in q.retryAt
        && (hash in due <==> q.retryAt[hash] <= now)
        && (hash in others <==> q.retryAt[hash] > now)
        && Drained(q.queue, i + 1, due) == Drained(q.queue, i, due) + (if hash in due then {hash} else {})
        && Keep(q.queue[..i + 1], due) == Keep(q.queue[..i], due) + (if hash in due then [hash] else [])
        && Keep(q.queue[..i + 1], others) == Keep(q.queue[..i], others) + (if hash in others then [hash] else [])
    {
      assert q.queue[i] in q.queue;
      assert q.queue[..i + 1][..i] == q.queue[..i];
      assert q.queue[..i + 1] == q.queue[..i] + [q.queue[i]];
    }

    // ---- Orphans ----

    /** Takes a block out of the buffer and out of every list; other listings stay, no list is left
        empty, and a tidy buffer stays tidy. */
    method RemoveOrphan(hash: Hash)
      modifies this`orphanBlocks, this`orphanChildrenByParent
      ensures Buffer() == OrphanPool.RemoveOrphan(old(Buffer()), hash)
      ensures orphanBlocks == old(orphanBlocks) - {hash}
      ensures forall p :: p in orphanChildrenByParent ==> orphanChildrenByParent[p] != []
      ensures forall p, h :: Books.ListedUnder(orphanChildrenByParent, p, h) <==>
        h != hash && Books.ListedUnder(old(orphanChildrenByParent), p, h)
      ensures Books.Tidy(old(Buffer()), {}) ==> Books.Tidy(Buffer(), {})
    {
      Books.UnlistExact(orphanChildrenByParent, hash);
      if Books.Tidy(Buffer(), {}) { Books.RemoveKeepsTidy(Buffer(), hash, {}); }
      RemoveOrphanIndex(hash);
      orphanBlocks := orphanBlocks - {hash};
    }

    /** Filters every list and drops those left empty. */
    method RemoveOrphanIndex(hash: Hash)
      modifies this`orphanChildrenByParent
      ensures orphanChildrenByParent == Unlist(old(orphanChildrenByParent), hash)
    {
      ghost var before := orphanChildrenByParent;
      var pending := orphanChildrenByParent.Keys;
      while pending != {}
        invariant pending <= before.Keys
        invariant forall p :: p in pending ==> p in orphanChildrenByParent && orphanChildrenByParent[p] == before[p]
        invariant forall p :: p in before && p !in pending ==>
          (p in orphanChildrenByParent <==> Without(before[p], hash) != [])
        invariant forall p :: p in orphanChildrenByParent && p !in pending ==>
          p in before && orphanChildrenByParent[p] == Without(before[p], hash)
      {
        var parent :| parent in pending;
        var kept := Retained(orphanChildrenByParent[parent], hash);
        if kept == [] {
          orphanChildrenByParent := orphanChildrenByParent - {parent};
        } else {
          orphanChildrenByParent := orphanChildrenByParent[parent := kept];
        }
        pending := pending - {parent};
      }
    }

    static method Retained(children: seq<Hash>, hash: Hash) returns (kept: seq<Hash>)
      ensures kept == Without(children, hash)
    {
      kept := [];
      for i := 0 to |children|
        invariant kept + Without(children[i..], hash) == Without(children, hash)
      {
        assert children[i..][1..] == children[i + 1..];
        ghost var rest := Without(children[i + 1..], hash);
        if children[i] != hash {
          assert kept + ([children[i]] + rest) == kept + [children[i]] + rest;
          kept := kept + [children[i]];
        } else {
          assert [] + rest == rest;
        }
      }
    }

    /** Removes exactly the blocks that are too old or too far ahead. */
    method PruneExpiredOrphans(now: nat)
      modifies this`orphanBlocks, this`orphanChildrenByParent
      ensures Contents() == PruneOrphans(old(Contents()), now)
      ensures orphanBlocks ==
        map h | h in old(orphanBlocks) && !Stale(ledger, old(orphanBlocks)[h], now) :: old(orphanBlocks)[h]
      ensures Books.Tidy(old(Buffer()), {}) ==> Books.Tidy(Buffer(), {})
    {
      hide Stale, Books.Tidy;
      Books.PruneExact(Contents(), now);
      if Books.Tidy(Buffer(), {}) { Books.PruneKeepsTidy(Contents(), now, {}); }
      var expired := StaleHashes(ledger, Buffer(), now);
      var i := 0;
      while i < |expired|
        invariant 0 <= i <= |expired|
        invariant RemoveOrphans(Buffer(), expired[i..]) == RemoveOrphans(old(Buffer()), expired)
      {
        assert expired[i..][1..] == expired[i + 1..];
        RemoveOrphan(expired[i]);
        i := i + 1;
      }
    }

    method CacheOrphanBlock(block: Block, now: nat)
      modifies this`orphanBlocks, this`orphanChildrenByParent
      modifies this`missingParentRequests, this`missingParentRequestSet, this`missingParentRetryAt
      ensures Contents() == CacheOrphan(old(Contents()), block, now)
      ensures Asking.Deferred(old(Contents()), block, now, Contents())
    {
      hide PruneOrphans, QueueAt, OrphanPool.RemoveOrphan, TooFarAhead, LowestHash, Stale, Books.Tidy,
        Books.ListedUnder, Asking.Deferred;
      Asking.CacheAsks(Contents(), block, now);
      PruneExpiredOrphans(now);
      Books.PruneTouchesOrphans(old(Contents()), now);
      if block.header.height == 0 {
        return;
      }
      if TooFarAhead(ledger, block) {
        return;
      }
      var hash := block.header.hash;
      if hash in forkChoice || hash in orphanBlocks {
        return;
      }
      if |orphanBlocks| >= MAX_ORPHAN_BLOCKS && orphanBlocks != map[] {
        RemoveOrphan(LowestHash(orphanBlocks));
      }
      var parent := block.header.previous;
      QueueMissingParentRequestAt(parent, now);
      var siblings := if parent in orphanChildrenByParent then orphanChildrenByParent[parent] else [];
      orphanChildrenByParent := orphanChildrenByParent[parent := siblings + [hash]];
      orphanBlocks := orphanBlocks[hash := Orphan(block, now)];
    }

    // ---- Branches ----

    /** Replays the branch to `tip` from the genesis accounts, block by block. */
    method LedgerForBranchTip(tip: Hash) returns (result: Result<Ledger, NodeError>)
      requires WellFormed(forkChoice)
      ensures result == LedgerForTip(rules, Chain(), tip)
    {
      hide ChainTo, WellFormed, Replay, BranchFrom, Ancestors;
      ghost var chain := ChainTo(forkChoice, tip);
      BranchOfTip(forkChoice, tip);
      var hashes := Ancestors(forkChoice, tip);
      var genesisHash := if hashes == [] then tip else hashes[|hashes| - 1];
      if genesisHash !in forkChoice {
        return Err(MissingForkNode);
      }
      var built := Ledger(genesisAccounts, [forkChoice[genesisHash].block]);
      var branch := BranchFrom(forkChoice, genesisHash, tip);
      if branch.None? {
        return Err(MissingForkBranch);
      }
      var i := 0;
      assert chain[..1] == built.chain;
      ReplayStarts(rules, genesisAccounts, chain);
      while i < |branch.value|
        invariant 0 <= i <= |branch.value|
        invariant built.chain == chain[..i + 1]
        invariant Replay(rules, genesisAccounts, built.chain) == Ok(built.state)
      {
        ReplaySteps(rules, genesisAccounts, chain, i + 1);
        var next := ExecuteOn(rules, built, branch.value[i]);
        if next.Err? {
          ReplayStops(rules, genesisAccounts, chain, i + 2);
          return Err(next.error);
        }
        built := next.value;
        i := i + 1;
      }
      assert chain[..i + 1] == chain;
      result := Ok(built);
    }

    static lemma ReplayStarts(r: Rules, genesis: State, chain: seq<Block>)
      requires chain != []
      ensures Replay(r, genesis, chain[..1]) == Ok(genesis)
    {
    }

    static lemma ReplaySteps(r: Rules, genesis: State, chain: seq<Block>, k: nat)
      requires 0 < k < |chain| && Replay(r, genesis, chain[..k]).Ok?
      ensures chain[..k + 1] == chain[..k] + [chain[k]]
      ensures Replay(r, genesis, chain[..k + 1]) ==
        r.execute(Replay(r, genesis, chain[..k]).value, chain[..k], chain[k])
    {
      assert chain[..k + 1][..k] == chain[..k];
    }

    static lemma BranchOfTip(t: Tree, tip: Hash)
      requires WellFormed(t)
      ensures
        var chain, hashes := ChainTo(t, tip), Ancestors(t, tip);
        && |hashes| == |chain| && (chain == [] <==> tip !in t)
        && (chain != [] ==>
             var g := hashes[|hashes| - 1];
             g in t && t[g].block == chain[0] && BranchFrom(t, g, tip) == Some(chain[1..]))
    {
      if tip in t { ChainShape(t, tip); }
    }

    static lemma {:induction false} ReplayStops(r: Rules, genesis: State, chain: seq<Block>, k: nat)
      requires 0 < k <= |chain| && Replay(r, genesis, chain[..k]).Err?
      ensures Replay(r, genesis, chain) == Replay(r, genesis, chain[..k])
      decreases |chain|
    {
      if k == |chain| {
        assert chain[..k] == chain;
      } else {
        var before := chain[..|chain| - 1];
        assert before[..k] == chain[..k];
        ReplayStops(r, genesis, before, k);
      }
    }

    /** The highest common block of the two branches. */
    method FindCommonAncestor(oldTip: Hash, newTip: Hash) returns (found: Option<Hash>)
      ensures found == CommonAncestor(forkChoice, oldTip, newTip)
    {
      var olds := Ancestors(forkChoice, oldTip);
      var oldAncestors := set i | 0 <= i < |olds| :: olds[i];
      var news := Ancestors(forkChoice, newTip);
      var i := 0;
      while i < |news|
        invariant 0 <= i <= |news|
        invariant FirstIn(news[i..], oldAncestors) == FirstIn(news, oldAncestors)
      {
        assert news[i..][0] == news[i] && news[i..][1..] == news[i + 1..];
        if news[i] in oldAncestors {
          return Some(news[i]);
        }
        i := i + 1;
      }
      found := None;
    }

    static method CacheFromLedger(l: Ledger) returns (c: Cache)
      ensures c == FromChain(l.chain)
    {
      c := EMPTY;
      var i := 0;
      while i < |l.chain|
        invariant 0 <= i <= |l.chain|
        invariant c == FromChain(l.chain[..i])
      {
        assert l.chain[..i + 1][..i] == l.chain[..i];
        c := InsertBlock(c, l.chain[i]);
        i := i + 1;
      }
      assert l.chain[..i] == l.chain;
    }

    // ---- Rollback issues ----

    method CanonicalTransactionLocation(tx: Hash) returns (at: Option<nat>)
      ensures at == Located(ledger.chain, tx)
    {
      var i := 0;
      while i < |ledger.chain|
        invariant 0 <= i <= |ledger.chain|
        invariant Located(ledger.chain, tx) ==
          match Located(ledger.chain[i..], tx) { case None => None case Some(k) => Some(k + i) }
      {
        assert ledger.chain[i..][0] == ledger.chain[i] && ledger.chain[i..][1..] == ledger.chain[i + 1..];
        var found := BlockCarries(ledger.chain[i], tx);
        if found {
          return Some(i);
        }
        i := i + 1;
      }
      at := None;
    }

    static method BlockCarries(b: Block, tx: Hash) returns (found: bool)
      ensures found == Carries(b, tx)
    {
      var j := 0;
      while j < |b.body.txs|
        invariant 0 <= j <= |b.body.txs|
        invariant forall k :: 0 <= k < j ==> b.body.txs[k].hash != tx
      {
        if b.body.txs[j].hash == tx {
          return true;
        }
        j := j + 1;
      }
      found := false;
    }

    function Recovering(): Recovery
      reads this
    {
      Recovery(mempool, storage.issues)
    }

    method RetryRollbackIssueRecord(key: IssueKey, issue: Issue, now: nat)
      modifies this`mempool, this`storage
      ensures Recovering() == Retry(rules, ledger, old(Recovering()), key, issue, now)
      ensures Rollback.Resolved(ledger.chain, old(Recovering()), Recovering(), key, issue)
      ensures storage == old(storage).(issues := storage.issues)
    {
      hide M.Insert, Rollback.Resolved;
      Rollback.RetryResolves(rules, ledger, Recovering(), key, issue, now);
      var tried := issue.(attempts := Min(issue.attempts + 1, U32_MAX));
      var at := CanonicalTransactionLocation(key.1);
      if at.Some? {
        var status := Reconfirmed(at.value, ledger.chain[at.value].header.hash);
        storage := storage.(issues := storage.issues[key := tried.(status := status)]);
        return;
      }
      var (pool, submitted) := M.Insert(rules, mempool, ledger, issue.tx, now);
      mempool := pool;
      var requeued := submitted.Ok? || submitted.error == M.DuplicateTransaction;
      var status := if requeued then Requeued else Conflict;
      storage := storage.(issues := storage.issues[key := tried.(status := status)]);
    }

    method RecoverTransactions(b: Block, now: nat) returns (outcome: Outcome)
      modifies this`mempool, this`storage
      ensures (Recovering(), outcome) == RecoverTxs(rules, ledger, old(Recovering()), b, 0, now)
      ensures storage == old(storage).(issues := storage.issues)
    {
      hide Retry;
      var i := 0;
      while i < |b.body.txs|
        invariant 0 <= i <= |b.body.txs|
        invariant RecoverTxs(rules, ledger, Recovering(), b, i, now) ==
          RecoverTxs(rules, ledger, old(Recovering()), b, 0, now)
        invariant storage == old(storage).(issues := storage.issues)
      {
        if i > U32_MAX {
          return Failed(TransactionIndexOverflow);
        }
        if !rules.proofOk(b, i) {
          return Failed(ProofError);
        }
        var key := (b.header.hash, b.body.txs[i].hash);
        var issue := Opened(Recovering(), b, i, now);
        RetryRollbackIssueRecord(key, issue, now);
        i := i + 1;
      }
      outcome := Done;
    }

    /** Files and retries an issue for every transaction of the blocks the new chain dropped. */
    method RecoverLosingBlocks(losing: seq<Block>, now: nat) returns (outcome: Outcome)
      modifies this`mempool, this`storage
      ensures (Recovering(), outcome) == RecoverBlocks(rules, ledger, old(Recovering()), losing, now)
      ensures storage == old(storage).(issues := storage.issues)
    {
      hide RecoverTxs, OnChain;
      var i := 0;
      while i < |losing|
        invariant 0 <= i <= |losing|
        invariant RecoverBlocks(rules, ledger, Recovering(), losing[i..], now) ==
          RecoverBlocks(rules, ledger, old(Recovering()), losing, now)
        invariant storage == old(storage).(issues := storage.issues)
      {
        assert losing[i..][0] == losing[i] && losing[i..][1..] == losing[i + 1..];
        if !OnChain(ledger.chain, losing[i].header.hash) {
          var result := RecoverTransactions(losing[i], now);
          if result.Failed? {
            return result;
          }
        }
        i := i + 1;
      }
      outcome := Done;
    }

    // ---- Placing a block ----

    /** Drops every fork off the finalized chain: what stays is the active chain up to the finality
        boundary and the branches through the boundary block, each of them unchanged. */
    method PruneFinalizedForks()
      modifies this`forkChoice
      ensures Chain() == PruneFinalized(rules, old(Chain()))
      ensures Safety.Rooted(rules, old(Chain())) && ledger.chain != [] ==>
        var k := SaturatingSub(|ledger.chain| - 1, rules.finalityDepth);
        && Safety.Rooted(rules, Chain()) && Within(forkChoice, old(forkChoice))
        && (forall h :: h in forkChoice <==>
             && h in old(forkChoice)
             && (OnChain(ledger.chain[..k + 1], h) ||
                 OnChain(ChainTo(old(forkChoice), h), ledger.chain[k].header.hash)))
        && (old(Safety.InSync(Chain())) ==> Safety.InSync(Chain()))
    {
      hide Safety.Rooted, ChainTo, OnChain, Prune, BestTip;
      if Safety.Rooted(rules, Chain()) && ledger.chain != [] {
        Safety.PruneExact(rules, Chain());
        Safety.PruneKeepsRooted(rules, Chain());
      }
      if ledger.chain == [] {
        return;
      }
      var finalized := SaturatingSub(|ledger.chain| - 1, rules.finalityDepth);
      forkChoice := Prune(forkChoice, ledger.chain[finalized].header.hash);
    }

    /** Goes over the stored blocks, lowest first, until a pass finds nothing more to connect, and
        prunes. The known ones are skipped, so a missing parent is the only way an insert fails. */
    method IndexStoredBlocks()
      modifies this`forkChoice
      ensures Chain() == PruneFinalized(rules,
        old(Chain()).(tree := Restart.IndexAll(old(forkChoice), Restart.StoredBlocks(storage.blocks))))
    {
      hide Prune, ChainTo, Restart.StoredBlocks, Safety.Rooted, OnChain, Safety.InSync;
      var blocks := Restart.StoredBlocks(storage.blocks);
      ghost var goal := Restart.IndexAll(forkChoice, blocks);
      var progressed := true;
      while progressed
        invariant goal == if progressed then Restart.IndexAll(forkChoice, blocks) else forkChoice
        decreases |blocks| + if progressed then 1 else 0
      {
        ghost var before := forkChoice;
        var remaining: seq<Block> := [];
        progressed := false;
        for i := 0 to |blocks|
          invariant Restart.Pass(before, blocks[..i]) == (forkChoice, remaining)
          invariant progressed <==> |remaining| < i
        {
          var block := blocks[i];
          assert blocks[..i + 1][..i] == blocks[..i];
          if block.header.hash in forkChoice {
            progressed := true;
            continue;
          }
          match Insert(forkChoice, block)
          case Ok(grown) =>
            forkChoice := grown;
            progressed := true;
          case Err(_) =>
            remaining := remaining + [block];
        }
        assert blocks[..|blocks|] == blocks;
        blocks := remaining;
      }
      PruneFinalizedForks();
    }

    /** Moves to the best branch unless that crosses the finality boundary. */
    method ReorgToBestTip(now: nat) returns (outcome: Outcome)
      requires WellFormed(forkChoice)
      modifies this`ledger, this`mempool, this`storage, this`cache, this`forkChoice, this`reorgsTotal
      ensures (Chain(), outcome) == Reorg(rules, old(Chain()), now)
    {
      hide RecoverBlocks, LedgerForTip, CommonAncestor, BranchFrom, BestTip, FromChain, ChainTo, Prune;
      var losing := ledger.chain;
      var best := BestTip(forkChoice);
      if best.None? {
        return Failed(MissingBestTip);
      }
      if ledger.chain == [] {
        return Failed(MissingCommonAncestor);
      }
      var ancestor := FindCommonAncestor(TipHash(ledger), best.value);
      if ancestor.None? {
        return Failed(MissingCommonAncestor);
      }
      if CrossesFinality(rules, Chain(), ancestor.value) {
        return Failed(FinalityViolation);
      }
      var branch := BranchFrom(forkChoice, ancestor.value, best.value);
      if branch.None? {
        return Failed(MissingForkBranch);
      }
      var context := ProofContext(Headers(ChainTo(forkChoice, TipHash(ledger))),
                                  Headers(ChainTo(forkChoice, best.value)), ancestor.value);
      storage := storage.(contexts := storage.contexts + {context});
      ghost var noted := Chain();
      assert noted == NoteContext(old(Chain()), best.value, ancestor.value);
      var rebuilt := LedgerForBranchTip(best.value);
      if rebuilt.Err? {
        return Failed(rebuilt.error);
      }
      ledger := rebuilt.value;
      cache := CacheFromLedger(ledger);
      storage := SaveLedger(storage, ledger);
      assert Chain() == SwitchTo(noted, rebuilt.value);
      outcome := RecoverLosingBlocks(losing, now);
      if outcome.Failed? {
        return;
      }
      reorgsTotal := Min(reorgsTotal + 1, U64_MAX);
      PruneFinalizedForks();
    }

    method ValidateBlockState(block: Block) returns (staged: Result<Option<Ledger>, NodeError>)
      requires WellFormed(forkChoice)
      ensures staged == CheckState(rules, Chain(), block)
      ensures
        Safety.Sound(rules, Chain()) && ledger.chain != [] && block.header.height > 0
        && block.header.previous in forkChoice ==>
          var parent := Roots.ParentLedger(rules, Chain(), block);
          && (staged.Ok? <==>
               && parent.Ok?
               && rules.rootAfter(parent.value.state, parent.value.chain, block) == Ok(block.header.stateRoot)
               && block.header.stateRoot != ZERO_HASH
               && Roots.Executes(rules, Chain(), parent.value, block))
          && (staged == Err(InvalidStateRoot) <==> parent.Ok? && Roots.WrongRoot(rules, parent.value, block))
    {
      hide Roots.ParentLedger, Roots.Executes, Roots.WrongRoot, Safety.Sound;
      if Safety.Sound(rules, Chain()) && ledger.chain != [] && block.header.height > 0
        && block.header.previous in forkChoice
      {
        Roots.StateChecked(rules, Chain(), block);
      }
      hide LedgerForTip, CheckRoot, ExecuteOn;
      if ExtendsTip(ledger, block) {
        var bad := CheckRoot(rules, ledger, block);
        if bad.Some? {
          return Err(bad.value);
        }
        var next := ExecuteOn(rules, ledger, block);
        if next.Err? {
          return Err(next.error);
        }
        return Ok(Some(next.value));
      }
      var branch := LedgerForBranchTip(block.header.previous);
      if branch.Err? {
        return Err(branch.error);
      }
      var bad := CheckRoot(rules, branch.value, block);
      if bad.Some? {
        return Err(bad.value);
      }
      staged := Ok(None);
    }

    method MarkRollbackIssuesReconfirmed(block: Block)
      modifies this`storage
      ensures storage == old(storage).(issues := MarkReconfirmed(old(storage).issues, block))
    {
      var begin := storage.issues;
      var i := 0;
      while i < |block.body.txs|
        invariant 0 <= i <= |block.body.txs|
        invariant storage == old(storage).(issues := storage.issues)
        invariant storage.issues == MarkReconfirmed(begin, block.(body := block.body.(txs := block.body.txs[..i])))
      {
        var hash := block.body.txs[i].hash;
        MarkStep(begin, block, i);
        storage := storage.(issues := MarkOne(storage.issues, block, hash));
        i := i + 1;
      }
      assert block.body.txs[..i] == block.body.txs;
    }

    static function MarkOne(issues: map<IssueKey, Issue>, block: Block, hash: Hash): map<IssueKey, Issue> {
      map k | k in issues ::
        if k.1 == hash && !issues[k].status.Reconfirmed?
        then issues[k].(status := Reconfirmed(block.header.height, block.header.hash))
        else issues[k]
    }

    static lemma MarkStep(issues: map<IssueKey, Issue>, block: Block, i: nat)
      requires i < |block.body.txs|
      ensures
        var upTo := (n: nat) requires n <= |block.body.txs| => block.(body := block.body.(txs := block.body.txs[..n]));
        MarkOne(MarkReconfirmed(issues, upTo(i)), block, block.body.txs[i].hash) ==
          MarkReconfirmed(issues, upTo(i + 1))
    {
      hide Carries;
      var before := block.(body := block.body.(txs := block.body.txs[..i]));
      var after := block.(body := block.body.(txs := block.body.txs[..i + 1]));
      forall h ensures Carries(after, h) <==> Carries(before, h) || h == block.body.txs[i].hash {
        CarriesOneMore(block, i, h);
      }
    }

    static lemma CarriesOneMore(block: Block, i: nat, h: Hash)
      requires i < |block.body.txs|
      ensures
        var upTo := (n: nat) requires n <= |block.body.txs| => block.(body := block.body.(txs := block.body.txs[..n]));
        Carries(upTo(i + 1), h) <==> Carries(upTo(i), h) || h == block.body.txs[i].hash
    {
      var before := block.(body := block.body.(txs := block.body.txs[..i]));
      var after := block.(body := block.body.(txs := block.body.txs[..i + 1]));
      if Carries(before, h) {
        var j :| 0 <= j < i && before.body.txs[j].hash == h;
        assert after.body.txs[j].hash == h;
      }
      assert after.body.txs[i] == block.body.txs[i];
      if Carries(after, h) {
        var j :| 0 <= j < i + 1 && after.body.txs[j].hash == h;
        assert j < i ==> before.body.txs[j].hash == h;
      }
    }

    /** Applies a block whose parent is known. A sound node stays sound whatever the outcome, and
        is left in sync by a success exactly when it was in sync or the block took over. */
    method ApplyKnownParentBlock(block: Block, now: nat) returns (outcome: Outcome)
      requires Lawful(rules) && Safety.Sound(rules, Chain())
      modifies this`ledger, this`mempool, this`storage, this`cache, this`forkChoice
      modifies this`genesisAccounts, this`reorgsTotal
      ensures (Chain(), outcome) == KnownParent(rules, old(Chain()), block, now)
      ensures Safety.StepGuarantee(rules, old(Chain()), block, Chain(), outcome)
      ensures Roots.Answers(rules, old(Chain()), block, Chain(), outcome)
    {
      hide Roots.Answers, Safety.StepGuarantee, Reorg, Extend, CheckState, CheckHeader, ChainTo, BestTip, Insert,
        ExtendsTip,
        WellFormed, Lawful, Safety.Faithful;
      Roots.AcceptedIff(rules, Chain(), block, now);
      Safety.StepIsSound(rules, Chain(), block, now);
      var bad := CheckHeader(rules, Chain(), block);
      if bad.Some? {
        return Failed(bad.value);
      }
      var staged := ValidateBlockState(block);
      if staged.Err? {
        return Failed(staged.error);
      }
      var inserted := Insert(forkChoice, block);
      if inserted.Err? {
        return Failed(ForkChoiceError(inserted.error));
      }
      Safety.AcceptedGrows(rules, Chain(), block, inserted.value);
      forkChoice := inserted.value;
      if BestTip(forkChoice) != Some(block.header.hash) {
        storage := storage.(blocks := storage.blocks[block.header.hash := block]);
        return Done;
      }
      if !ExtendsTip(ledger, block) {
        outcome := ReorgToBestTip(now);
        return;
      }
      if staged.value.None? {
        return Failed(MissingStagedLedger);
      }
      ExtendActiveChain(block, staged.value.value);
      outcome := Done;
    }

    method ExtendActiveChain(block: Block, staged: Ledger)
      modifies this`ledger, this`mempool, this`storage, this`cache, this`forkChoice, this`genesisAccounts
      ensures Chain() == Extend(rules, old(Chain()), block, staged)
      ensures mempool.txs == map h | h in old(mempool).txs && !Carries(block, h) :: old(mempool).txs[h]
      ensures Rollback.Confirmed(block, old(storage).issues, storage.issues)
    {
      hide Rollback.Confirmed, Carries;
      Rollback.ExtensionConfirms(rules, Chain(), block, staged);
      hide M.ConfirmAll, SaveLedger, Prune, MarkReconfirmed, InsertBlock;
      ledger := staged;
      if block.header.height == 0 {
        genesisAccounts := rules.accountsOf(ledger.state);
      }
      mempool := M.ConfirmAll(mempool, block);
      MarkRollbackIssuesReconfirmed(block);
      cache := InsertBlock(cache, block);
      storage := SaveLedger(storage, ledger);
      PruneFinalizedForks();
    }

    // ---- Block intake ----

    method ReconnectChildren(children: seq<Hash>, waiting: seq<Hash>, now: nat) returns (parents: seq<Hash>)
      requires Lawful(rules) && Safety.Sound(rules, Chain())
      modifies this
      ensures (Contents(), parents) == Reconnect(rules, old(Contents()), children, waiting, now)
      ensures Safety.Sound(rules, Chain())
    {
      hide CacheOrphan, KnownParent, Safety.Sound, Reconnect, Lawful, Roots.Answers, Asking.Deferred,
        Safety.ActiveMoves, Safety.InSync, Safety.TakesOver, Insert;
      parents := waiting;
      assert children[0..] == children;
      var i := 0;
      while i < |children|
        invariant 0 <= i <= |children|
        invariant Reconnect(rules, Contents(), children[i..], parents, now) ==
          Reconnect(rules, old(Contents()), children, waiting, now)
        invariant Safety.Sound(rules, Chain())
      {
        ReconnectUnfolds(rules, Contents(), children, i, parents, now);
        var hash := children[i];
        i := i + 1;
        if hash !in orphanBlocks {
          continue;
        }
        var child := orphanBlocks[hash].block;
        ghost var before := Contents();
        orphanBlocks := orphanBlocks - {hash};
        assert Contents() == TakeOrphan(before, hash);
        var outcome := ApplyKnownParentBlock(child, now);
        if outcome == Done {
          parents := parents + [hash];
        } else if outcome == Failed(ForkChoiceError(MissingParent)) {
          CacheOrphanBlock(child, now);
        }
      }
      assert children[i..] == [];
      ReconnectNone(rules, Contents(), parents, now);
    }

    static lemma ReconnectNone(r: Rules, n: NodeState, parents: seq<Hash>, now: nat)
      ensures Reconnect(r, n, [], parents, now) == (n, parents)
    {
    }

    /** What the child at position `i` does to the rest of the reconnection. */
    static lemma ReconnectUnfolds(r: Rules, n: NodeState, kids: seq<Hash>, i: nat, parents: seq<Hash>, now: nat)
      requires i < |kids|
      ensures kids[i] !in n.orphans.blocks ==>
        Reconnect(r, n, kids[i..], parents, now) == Reconnect(r, n, kids[i + 1..], parents, now)
      ensures kids[i] in n.orphans.blocks ==>
        var child, taken := n.orphans.blocks[kids[i]].block, TakeOrphan(n, kids[i]);
        var (core, outcome) := KnownParent(r, taken.core, child, now);
        var next := taken.(core := core);
        var again := outcome == Failed(ForkChoiceError(MissingParent));
        Reconnect(r, n, kids[i..], parents, now) ==
          Reconnect(r, if again then CacheOrphan(next, child, now) else next, kids[i + 1..],
            if outcome.Done? then parents + [kids[i]] else parents, now)
    {
      hide KnownParent, CacheOrphan;
      assert kids[i..][0] == kids[i] && kids[i..][1..] == kids[i + 1..];
    }

    method ProcessOrphansForParent(parent: Hash, now: nat)
      requires Lawful(rules) && Safety.Sound(rules, Chain())
      modifies this
      ensures Contents() == ProcessOrphans(rules, old(Contents()), parent, now)
      ensures Safety.Sound(rules, Chain())
    {
      hide Reconnect, PruneOrphans, Safety.Sound;
      PruneExpiredOrphans(now);
      Books.PruneTouchesOrphans(old(Contents()), now);
      var parents := [parent];
      while parents != []
        invariant ReconnectAll(rules, Contents(), parents, now) == ProcessOrphans(rules, old(Contents()), parent, now)
        invariant Safety.Sound(rules, Chain())
        decreases 2 * |orphanBlocks| + |parents|
      {
        var next, rest := parents[|parents| - 1], parents[..|parents| - 1];
        parents := rest;
        if next !in orphanChildrenByParent {
          continue;
        }
        var children := orphanChildrenByParent[next];
        ghost var before := Contents();
        orphanChildrenByParent := orphanChildrenByParent - {next};
        assert Contents() == DropList(before, next);
        parents := ReconnectChildren(children, parents, now);
      }
    }

    /** Takes a block in: applies it and whatever it reconnects, or keeps it waiting. The node
        stays sound and its orphan and request indexes stay in agreement. */
    method ApplyBlock(block: Block, now: nat) returns (outcome: Outcome)
      requires Lawful(rules) && Safety.Sound(rules, Chain()) && Books.Kept(Contents())
      modifies this
      ensures (Contents(), outcome) == OrphanPool.ApplyBlock(rules, old(Contents()), block, now)
      ensures Safety.Sound(rules, Chain()) && Books.Kept(Contents())
    {
      hide Safety.Sound, Books.Kept, KnownParent, CacheOrphan, ProcessOrphans, PruneOrphans;
      Books.ApplyKeepsKept(rules, Contents(), block, now);
      PruneExpiredOrphans(now);
      Books.PruneTouchesOrphans(old(Contents()), now);
      var applied := ApplyKnownParentBlock(block, now);
      if applied == Done {
        ProcessOrphansForParent(block.header.hash, now);
        return Done;
      }
      if applied == Failed(ForkChoiceError(MissingParent)) {
        CacheOrphanBlock(block, now);
        return Done;
      }
      if applied == Failed(ForkChoiceError(DuplicateBlock)) || applied == Failed(LedgerFailure(AlreadyApplied)) {
        return Done;
      }
      blockValidationFailures := Min(blockValidationFailures + 1, U64_MAX);
      outcome := applied;
    }
  }
}

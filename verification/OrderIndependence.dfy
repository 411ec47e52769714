/** Delivery order does not matter: any way of delivering a tree of valid blocks ends alike. */
module OrderIndependence {
  import opened Paqus
  import opened Ordering
  import opened ForkTree
  import opened CoreCache
  import opened ChainEngine
  import opened ChainSafety
  import opened StateRoots
  import opened OrphanPool
  import opened OrphanBookkeeping

  ghost predicate ValidBlock(r: Rules, u: Tree, genesis: State, h: Hash)
    requires h in u
  {
    var b := u[h].block;
    var before := ChainTo(u, b.header.previous);
    && b.header.previous in u && r.nextOk(b, u[b.header.previous].block)
    && Commits(r, genesis, before, b)
    && r.execute(Replay(r, genesis, before).value, before, b).Ok?
    && Provable(r, b)
  }

  /** Inclusion proofs exist for every transaction of the block. */
  ghost predicate Provable(r: Rules, b: Block) {
    |b.body.txs| <= U32_MAX && forall i :: 0 <= i < |b.body.txs| ==> r.proofOk(b, i)
  }

  /** A tree of valid blocks over the genesis block, no higher than the finality depth. */
  ghost predicate ValidTree(r: Rules, u: Tree, genesis: State) {
    && Lawful(r) && WellFormed(u)
    && r.genesisHash in u && Height(u, r.genesisHash) == 0
    && (forall h :: h in u && h != r.genesisHash ==> ValidBlock(r, u, genesis, h))
    && (forall h :: h in u ==> Height(u, h) <= r.finalityDepth)
  }

  /** A sound node in sync whose blocks all belong to `u`. */
  ghost predicate Partial(r: Rules, u: Tree, genesis: State, s: Core) {
    && Sound(r, s) && InSync(s)
    && s.ledger.chain != [] && s.genesis == genesis
    && Within(s.tree, u)
  }

  // ---- A valid block with a known parent is always taken in ----

  lemma BranchLedger(r: Rules, u: Tree, genesis: State, s: Core, h: Hash)
    requires ValidTree(r, u, genesis) && h in s.tree
    requires WellFormed(s.tree) && Within(s.tree, u) && s.genesis == genesis
    ensures ChainTo(s.tree, h) == ChainTo(u, h) && ChainTo(u, h) != []
    ensures Replay(r, genesis, ChainTo(u, h)).Ok?
    ensures LedgerForTip(r, s, h) == Ok(Ledger(Replay(r, genesis, ChainTo(u, h)).value, ChainTo(u, h)))
  {
    ChainStable(s.tree, u, h);
    ChainShape(u, h);
    if h != r.genesisHash {
      assert ValidBlock(r, u, genesis, h);
      var b := u[h].block;
      var before := ChainTo(u, b.header.previous);
      assert Linked(u, h);
      assert ChainTo(u, h) == before + [b] by {
        assert Height(u, h) > 0;
      }
      assert (before + [b])[..|before|] == before;
    }
  }

  lemma ValidPasses(r: Rules, u: Tree, genesis: State, s: Core, h: Hash)
    requires ValidTree(r, u, genesis) && Partial(r, u, genesis, s)
    requires h in u && h != r.genesisHash && u[h].block.header.previous in s.tree
    ensures CheckHeader(r, s, u[h].block).None? && CheckState(r, s, u[h].block).Ok?
    ensures u[h].block.header.hash == h && Height(u, h) > 0
  {
    var b := u[h].block;
    var p := b.header.previous;
    assert ValidBlock(r, u, genesis, h);
    assert Linked(u, h);
    assert Height(u, h) > 0;
    assert s.tree[p].block == u[p].block;
    BranchLedger(r, u, genesis, s, p);
    if ExtendsTip(s.ledger, b) {
      assert s.ledger.chain == ChainTo(u, p);
      assert s.ledger == Ledger(Replay(r, genesis, ChainTo(u, p)).value, ChainTo(u, p));
    }
    hide Replay, ChainTo, WellFormed, BestTip, LedgerForTip, CheckRoot;
  }

  lemma InsertFromTree(u: Tree, t: Tree, h: Hash)
    requires WellFormed(u) && Within(t, u) && h in u && h !in t
    requires Height(u, h) > 0 && u[h].block.header.previous in t
    ensures Insert(t, u[h].block) == Ok(t[h := u[h]]) && Within(t[h := u[h]], u)
  {
    assert Linked(u, h);
  }

  /** Within the finality depth, pruning drops nothing. */
  lemma NothingPruned(r: Rules, s: Core)
    requires Rooted(r, s) && s.ledger.chain != [] && |s.ledger.chain| - 1 <= r.finalityDepth
    ensures PruneFinalized(r, s) == s
  {
    ChainShape(s.tree, TipHash(s.ledger));
    var root := s.ledger.chain[0].header.hash;
    PruneAtRoot(s.tree, root);
  }

  lemma TipWithinDepth(r: Rules, u: Tree, genesis: State, s: Core)
    requires ValidTree(r, u, genesis) && Rooted(r, s) && s.ledger.chain != [] && Within(s.tree, u)
    ensures |s.ledger.chain| - 1 <= r.finalityDepth
    ensures forall i :: 0 <= i < |s.ledger.chain| ==>
      s.ledger.chain[i].header.hash in u && u[s.ledger.chain[i].header.hash].block == s.ledger.chain[i]
  {
    ChainShape(s.tree, TipHash(s.ledger));
    assert Height(s.tree, TipHash(s.ledger)) == Height(u, TipHash(s.ledger));
  }

  lemma {:induction false} ValidTxsRecover(r: Rules, l: Ledger, rec: Recovery, b: Block, i: nat, now: nat)
    requires i <= |b.body.txs| && Provable(r, b)
    ensures RecoverTxs(r, l, rec, b, i, now).1.Done?
    decreases |b.body.txs| - i
  {
    hide Retry;
    if i < |b.body.txs| {
      var key := (b.header.hash, b.body.txs[i].hash);
      ValidTxsRecover(r, l, Retry(r, l, rec, key, Opened(rec, b, i, now), now), b, i + 1, now);
    }
  }

  lemma {:induction false} ValidBlocksRecover(r: Rules, l: Ledger, rec: Recovery, blocks: seq<Block>, now: nat)
    requires forall k :: 0 <= k < |blocks| && !OnChain(l.chain, blocks[k].header.hash) ==> Provable(r, blocks[k])
    ensures RecoverBlocks(r, l, rec, blocks, now).1.Done?
    decreases |blocks|
  {
    hide RecoverTxs, OnChain, Provable;
    if blocks != [] {
      var rest := blocks[1..];
      assert forall k :: 0 <= k < |rest| ==> rest[k] == blocks[k + 1];
      if OnChain(l.chain, blocks[0].header.hash) {
        ValidBlocksRecover(r, l, rec, rest, now);
      } else {
        ValidTxsRecover(r, l, rec, blocks[0], 0, now);
        ValidBlocksRecover(r, l, RecoverTxs(r, l, rec, blocks[0], 0, now).0, rest, now);
      }
    }
  }

  lemma OldBlocksProvable(r: Rules, u: Tree, genesis: State, s: Core, l: Ledger, k: nat)
    requires ValidTree(r, u, genesis) && Rooted(r, s) && s.ledger.chain != [] && Within(s.tree, u)
    requires k < |s.ledger.chain| && !OnChain(l.chain, s.ledger.chain[k].header.hash)
    requires OnChain(l.chain, r.genesisHash)
    ensures Provable(r, s.ledger.chain[k])
  {
    TipWithinDepth(r, u, genesis, s);
    var h := s.ledger.chain[k].header.hash;
    assert h != r.genesisHash;
    assert ValidBlock(r, u, genesis, h);
  }

  lemma RootOnChain(r: Rules, u: Tree, genesis: State, h: Hash)
    requires ValidTree(r, u, genesis) && h in u
    ensures OnChain(ChainTo(u, h), r.genesisHash)
  {
    ChainShape(u, h);
    var first := ChainTo(u, h)[0];
    assert Height(u, first.header.hash) == 0;
  }

  lemma SwitchCompletes(r: Rules, u: Tree, genesis: State, s: Core, best: Hash, now: nat)
    requires ValidTree(r, u, genesis) && Sound(r, s) && s.ledger.chain != []
    requires Within(s.tree, u) && s.genesis == genesis && BestTip(s.tree) == Some(best)
    ensures
      var (s', outcome) := Switch(r, s, best, now);
      outcome.Done? && s'.tree == s.tree && s'.genesis == genesis
  {
    BranchLedger(r, u, genesis, s, best);
    var l := LedgerForTip(r, s, best).value;
    BestLedgerIsSound(r, s, best, l);
    RootOnChain(r, u, genesis, best);
    var chain := s.ledger.chain;
    forall k | 0 <= k < |chain| && !OnChain(l.chain, chain[k].header.hash) ensures Provable(r, chain[k]) {
      OldBlocksProvable(r, u, genesis, s, l, k);
    }
    var rec := Recovery(s.pool, s.disk.issues);
    ValidBlocksRecover(r, l, rec, chain, now);
    var switched := SwitchTo(s, l);
    TipWithinDepth(r, u, genesis, switched);
    RecoverCompletes(r, switched, chain, now);
  }

  lemma RecoverCompletes(r: Rules, s: Core, losing: seq<Block>, now: nat)
    requires Rooted(r, s) && s.ledger.chain != [] && |s.ledger.chain| - 1 <= r.finalityDepth
    requires RecoverBlocks(r, s.ledger, Recovery(s.pool, s.disk.issues), losing, now).1.Done?
    ensures
      var (s', outcome) := Recover(r, s, losing, now);
      outcome.Done? && s'.tree == s.tree && s'.genesis == s.genesis
  {
    hide RecoverBlocks, ChainTo, WellFormed, PruneFinalized;
    var rec := RecoverBlocks(r, s.ledger, Recovery(s.pool, s.disk.issues), losing, now).0;
    var end := s.(pool := rec.pool, disk := s.disk.(issues := rec.issues), reorgs := Min(s.reorgs + 1, U64_MAX));
    assert Rooted(r, end);
    NothingPruned(r, end);
  }

  lemma ReorgCompletes(r: Rules, u: Tree, genesis: State, s: Core, now: nat)
    requires ValidTree(r, u, genesis) && Sound(r, s) && s.ledger.chain != []
    requires Within(s.tree, u) && s.genesis == genesis
    ensures
      var (s', outcome) := Reorg(r, s, now);
      outcome.Done? && s'.tree == s.tree && s'.genesis == genesis
  {
    hide Switch, ChainTo, WellFormed, Replay, Matches, CommonAncestor, BranchFrom, ValidTree;
    var best := BestTip(s.tree).value;
    ReorgSetting(r, s, best);
    TipWithinDepth(r, u, genesis, s);
    var ancestor := CommonAncestor(s.tree, TipHash(s.ledger), best).value;
    var noted := NoteContext(s, best, ancestor);
    assert Sound(r, noted);
    SwitchCompletes(r, u, genesis, noted, best, now);
  }

  /** A valid block whose parent is in the tree, and which is not, is always taken in. */
  lemma ValidBlockJoins(r: Rules, u: Tree, genesis: State, s: Core, h: Hash, now: nat)
    requires ValidTree(r, u, genesis) && Partial(r, u, genesis, s)
    requires h in u && h !in s.tree && u[h].block.header.previous in s.tree && h != r.genesisHash
    ensures
      var (s', outcome) := KnownParent(r, s, u[h].block, now);
      outcome.Done? && Partial(r, u, genesis, s') && s'.tree == s.tree[h := u[h]]
  {
    var b := u[h].block;
    ValidPasses(r, u, genesis, s, h);
    InsertFromTree(u, s.tree, h);
    var t := s.tree[h := u[h]];
    StepIsSound(r, s, b, now);
    AcceptedGrows(r, s, b, t);
    var staged := CheckState(r, s, b).value;
    JoinPlaces(r, u, genesis, s, b, t, staged, now);
    hide CheckHeader, CheckState, Insert, Place, Sound, InSync;
  }

  lemma JoinPlaces(r: Rules, u: Tree, genesis: State, s: Core, b: Block, t: Tree, staged: Option<Ledger>, now: nat)
    requires ValidTree(r, u, genesis) && Partial(r, u, genesis, s) && Within(t, u)
    requires CheckHeader(r, s, b).None? && CheckState(r, s, b) == Ok(staged) && Insert(s.tree, b) == Ok(t)
    requires b.header.height > 0
    ensures
      var (s', outcome) := Place(r, s.(tree := t), b, staged, now);
      outcome.Done? && s'.tree == t && s'.genesis == genesis
  {
    hide Reorg, Extend, BestTip, WellFormed, ValidBlock, Lawful, Replay, Matches, Insert, CheckHeader, ExecuteOn,
      CheckRoot, ChainTo, Rooted, Faithful;
    var g := s.(tree := t);
    if BestTip(t) == Some(b.header.hash) {
      if !ExtendsTip(s.ledger, b) {
        GrownIsSound(r, s, b, t);
        ReorgCompletes(r, u, genesis, g, now);
      } else {
        JoinByExtend(r, u, genesis, s, b, t, staged.value);
      }
    }
  }

  lemma GrownIsSound(r: Rules, s: Core, b: Block, t: Tree)
    requires Lawful(r) && Sound(r, s) && s.ledger.chain != []
    requires CheckHeader(r, s, b).None? && Insert(s.tree, b) == Ok(t)
    ensures Sound(r, s.(tree := t))
  {
    hide Insert, CheckHeader, Rooted, Matches, Replay, Lawful;
    AcceptedGrows(r, s, b, t);
  }

  lemma JoinByExtend(r: Rules, u: Tree, genesis: State, s: Core, b: Block, t: Tree, staged: Ledger)
    requires ValidTree(r, u, genesis) && Partial(r, u, genesis, s) && Within(t, u)
    requires CheckHeader(r, s, b).None? && Insert(s.tree, b) == Ok(t) && b.header.height > 0
    requires ExtendsTip(s.ledger, b) && ExecuteOn(r, s.ledger, b) == Ok(staged)
    ensures
      var s' := Extend(r, s.(tree := t), b, staged);
      s'.tree == t && s'.genesis == genesis
  {
    hide Extend, BestTip, WellFormed, ValidBlock, Lawful, Replay, Matches, Insert, CheckHeader, ChainTo, Faithful;
    AcceptedGrows(r, s, b, t);
    ExtendPrunesNothing(r, u, genesis, s.(tree := t), b, staged);
  }

  lemma ExtendPrunesNothing(r: Rules, u: Tree, genesis: State, s: Core, b: Block, staged: Ledger)
    requires ValidTree(r, u, genesis) && Within(s.tree, u) && s.genesis == genesis
    requires WellFormed(s.tree) && b.header.height > 0
    requires r.genesisHash in s.tree && Height(s.tree, r.genesisHash) == 0
    requires b.header.hash in s.tree && staged.chain == ChainTo(s.tree, b.header.hash)
    ensures Extend(r, s, b, staged).tree == s.tree && Extend(r, s, b, staged).genesis == genesis
  {
    var e := Extended(r, s, b, staged);
    ChainShape(s.tree, b.header.hash);
    assert Rooted(r, e);
    TipWithinDepth(r, u, genesis, e);
    NothingPruned(r, e);
    assert Extend(r, s, b, staged) == PruneFinalized(r, e);
  }

  // ---- Waiting blocks ----

  /** The waiting blocks are blocks of `u` outside the tree. */
  ghost predicate Waiting(r: Rules, u: Tree, n: NodeState) {
    forall h :: h in n.orphans.blocks ==>
      && h in u && h != r.genesisHash && h !in n.core.tree
      && n.orphans.blocks[h].block == u[h].block
  }

  ghost predicate Underway(r: Rules, u: Tree, genesis: State, n: NodeState, loose: set<Hash>) {
    Partial(r, u, genesis, n.core) && Waiting(r, u, n) && Tidy(n.orphans, loose)
  }

  /** No waiting block is too old or too far ahead. */
  ghost predicate NoneStale(n: NodeState, now: nat) {
    forall h :: h in n.orphans.blocks ==> !Stale(n.core.ledger, n.orphans.blocks[h], now)
  }

  /** Handling `b` hits no orphan limit: nothing waiting is stale before or after the block's own
      step, and if the block has to wait it is not too far ahead and finds room. */
  ghost predicate WithinOrphanLimits(r: Rules, n: NodeState, b: Block, now: nat) {
    && NoneStale(n, now)
    && NoneStale(n.(core := KnownParent(r, n.core, b, now).0), now)
    && (b.header.previous !in n.core.tree && b.header.hash !in n.orphans.blocks ==>
         !TooFarAhead(n.core.ledger, b) && |n.orphans.blocks| < MAX_ORPHAN_BLOCKS)
  }

  /** The records in `after` are among those in `before`. */
  ghost predicate Fewer(after: map<Hash, Orphan>, before: map<Hash, Orphan>) {
    forall h :: h in after ==> h in before && after[h] == before[h]
  }

  /** The records in `n'` were in `n`, except perhaps the one of `h`, received just now. */
  ghost predicate Aged(n': NodeState, n: NodeState, h: Hash, now: nat) {
    forall k :: k in n'.orphans.blocks ==>
      || (k in n.orphans.blocks && n'.orphans.blocks[k] == n.orphans.blocks[k])
      || (k == h && n'.orphans.blocks[k].receivedAt == now)
  }

  function Known(n: NodeState): set<Hash> {
    n.core.tree.Keys + n.orphans.blocks.Keys
  }

  /** Waiting blocks whose parent has arrived are loose, or their parent is still to be visited. */
  ghost predicate Pending(n: NodeState, parents: seq<Hash>, loose: set<Hash>) {
    forall h :: h in n.orphans.blocks && n.orphans.blocks[h].block.header.previous in n.core.tree ==>
      h in loose || n.orphans.blocks[h].block.header.previous in parents
  }

  lemma FreshStay(n: NodeState, now: nat)
    requires NoneStale(n, now)
    ensures PruneOrphans(n, now) == n
  {
    hide Stale;
    assert StaleKeys(n.core.ledger, n.orphans, now) == {};
    assert StaleHashes(n.core.ledger, n.orphans, now) == [];
  }

  lemma OrphanWaits(r: Rules, u: Tree, genesis: State, n: NodeState, h: Hash, now: nat)
    requires ValidTree(r, u, genesis) && Underway(r, u, genesis, n, {}) && NoneStale(n, now)
    requires h in u && h != r.genesisHash && h !in n.core.tree
    requires u[h].block.header.previous !in n.core.tree && Pending(n, [], {})
    requires h !in n.orphans.blocks ==>
      !TooFarAhead(n.core.ledger, u[h].block) && |n.orphans.blocks| < MAX_ORPHAN_BLOCKS
    ensures
      var n' := CacheOrphan(n, u[h].block, now);
      && n'.core == n.core && Underway(r, u, genesis, n', {}) && Pending(n', [], {})
      && n'.orphans.blocks.Keys == n.orphans.blocks.Keys + {h}
      && Aged(n', n, h, now)
  {
    hide Tidy, Partial, ValidTree, PruneOrphans, QueueAt, Waiting, Pending;
    var b := u[h].block;
    NodeFacts(r, u, genesis, h);
    FreshStay(n, now);
    if h !in n.orphans.blocks {
      CacheIsAdd(n, b, now);
      AddKeepsTidy(n.orphans, b, now, {});
      AddWaits(r, u, n, CacheOrphan(n, b, now), h, now);
    }
  }

  lemma AddWaits(r: Rules, u: Tree, n: NodeState, n': NodeState, h: Hash, now: nat)
    requires Waiting(r, u, n) && Pending(n, [], {})
    requires h in u && h != r.genesisHash && h !in n.core.tree
    requires u[h].block.header.previous !in n.core.tree
    requires n'.core == n.core && n'.orphans.blocks == n.orphans.blocks[h := Orphan(u[h].block, now)]
    ensures Waiting(r, u, n') && Pending(n', [], {}) && Aged(n', n, h, now)
    ensures n'.orphans.blocks.Keys == n.orphans.blocks.Keys + {h}
  {
  }

  lemma CacheIsAdd(n: NodeState, b: Block, now: nat)
    requires PruneOrphans(n, now) == n && 0 < b.header.height && !TooFarAhead(n.core.ledger, b)
    requires b.header.hash !in n.core.tree && b.header.hash !in n.orphans.blocks
    requires |n.orphans.blocks| < MAX_ORPHAN_BLOCKS
    ensures
      var n' := CacheOrphan(n, b, now);
      n'.core == n.core && n'.orphans == AddOrphan(n.orphans, b, now)
  {
    hide PruneOrphans, QueueAt;
  }

  lemma NodeFacts(r: Rules, u: Tree, genesis: State, h: Hash)
    requires ValidTree(r, u, genesis) && h in u && h != r.genesisHash
    ensures u[h].block.header.hash == h && u[h].block.header.previous in u
    ensures 0 < u[h].block.header.height
    ensures u[u[h].block.header.previous].block.header.height < u[h].block.header.height
  {
    assert Linked(u, h);
    assert Height(u, h) != 0;
  }

  // ---- The reconnect loop absorbs every block it can ----

  ghost predicate KidsReady(u: Tree, n: NodeState, kids: seq<Hash>) {
    NoRepeats(kids) && forall k :: k in kids ==>
      k in n.orphans.blocks && n.orphans.blocks[k].block.header.previous in n.core.tree
  }

  lemma ChildJoins(r: Rules, u: Tree, genesis: State, n: NodeState, k: Hash, loose: set<Hash>, now: nat)
    requires ValidTree(r, u, genesis) && Underway(r, u, genesis, n, loose)
    requires k in loose && k in n.orphans.blocks
    requires n.orphans.blocks[k].block.header.previous in n.core.tree
    ensures
      var taken := TakeOrphan(n, k);
      var (core, outcome) := KnownParent(r, taken.core, n.orphans.blocks[k].block, now);
      var n' := taken.(core := core);
      && outcome.Done? && Underway(r, u, genesis, n', loose - {k})
      && n'.core.tree == n.core.tree[k := u[k]]
      && n'.orphans.blocks == n.orphans.blocks - {k}
  {
    hide Tidy, ValidTree, KnownParent, Partial;
    ValidBlockJoins(r, u, genesis, n.core, k, now);
    TakeKeepsTidy(n.orphans, k, loose);
  }

  lemma {:induction false} ReconnectAbsorbs(r: Rules, u: Tree, genesis: State, n: NodeState, kids: seq<Hash>,
      parents: seq<Hash>, now: nat)
    requires ValidTree(r, u, genesis) && Underway(r, u, genesis, n, Rest(kids))
    requires KidsReady(u, n, kids) && Pending(n, parents, Rest(kids))
    requires forall p :: p in parents ==> p in n.core.tree
    ensures
      var (n', parents') := Reconnect(r, n, kids, parents, now);
      && Underway(r, u, genesis, n', {}) && Pending(n', parents', {})
      && Known(n') == Known(n) && (forall p :: p in parents' ==> p in n'.core.tree)
      && Fewer(n'.orphans.blocks, n.orphans.blocks)
    decreases |kids|
  {
    hide Tidy, ValidTree, KnownParent, Partial, CacheOrphan;
    if kids == [] {
      assert Rest(kids) == {};
    } else {
      var k, more := kids[0], kids[1..];
      var taken := TakeOrphan(n, k);
      var core := KnownParent(r, taken.core, n.orphans.blocks[k].block, now).0;
      AbsorbStep(r, u, genesis, n, kids, parents, now);
      ReconnectAbsorbs(r, u, genesis, taken.(core := core), more, parents + [k], now);
    }
  }

  lemma AbsorbStep(r: Rules, u: Tree, genesis: State, n: NodeState, kids: seq<Hash>, parents: seq<Hash>, now: nat)
    requires ValidTree(r, u, genesis) && Underway(r, u, genesis, n, Rest(kids)) && kids != []
    requires KidsReady(u, n, kids) && Pending(n, parents, Rest(kids))
    requires forall p :: p in parents ==> p in n.core.tree
    ensures kids[0] in n.orphans.blocks
    ensures
      var k, more := kids[0], kids[1..];
      var taken := TakeOrphan(n, k);
      var (core, outcome) := KnownParent(r, taken.core, n.orphans.blocks[k].block, now);
      var n' := taken.(core := core);
      && outcome.Done? && Underway(r, u, genesis, n', Rest(more))
      && KidsReady(u, n', more) && Pending(n', parents + [k], Rest(more))
      && Known(n') == Known(n)
      && forall p :: p in parents + [k] ==> p in n'.core.tree
  {
    hide Underway, ValidTree, KnownParent;
    var k, more := kids[0], kids[1..];
    assert k in Rest(kids);
    assert forall i :: 0 <= i < |more| ==> more[i] == kids[i + 1];
    assert Rest(more) == Rest(kids) - {k} by {
      assert kids == [k] + more;
    }
    ChildJoins(r, u, genesis, n, k, Rest(kids), now);
    var taken := TakeOrphan(n, k);
    var core := KnownParent(r, taken.core, n.orphans.blocks[k].block, now).0;
    assert KidsReady(u, taken.(core := core), more);
  }

  lemma {:induction false} LoopAbsorbs(r: Rules, u: Tree, genesis: State, n: NodeState, parents: seq<Hash>, now: nat)
    requires ValidTree(r, u, genesis) && Underway(r, u, genesis, n, {})
    requires Pending(n, parents, {}) && forall p :: p in parents ==> p in n.core.tree
    ensures
      var n' := ReconnectAll(r, n, parents, now);
      && Underway(r, u, genesis, n', {}) && Pending(n', [], {}) && Known(n') == Known(n)
      && Fewer(n'.orphans.blocks, n.orphans.blocks)
    decreases 2 * |n.orphans.blocks| + |parents|
  {
    hide Underway, ValidTree, Reconnect, Pending, Known, Fewer, KidsReady;
    if parents == [] {
      FewerItself(n.orphans.blocks);
    } else {
      var p, rest := parents[|parents| - 1], parents[..|parents| - 1];
      assert parents == rest + [p];
      if p !in n.orphans.children {
        NothingListed(r, u, genesis, n, rest, p);
        LoopAbsorbs(r, u, genesis, n, rest, now);
      } else {
        var kids := n.orphans.children[p];
        var dropped := DropList(n, p);
        ListTakenOff(r, u, genesis, n, rest, p);
        ReconnectAbsorbs(r, u, genesis, dropped, kids, rest, now);
        var (next, more) := Reconnect(r, dropped, kids, rest, now);
        LoopAbsorbs(r, u, genesis, next, more, now);
        FewerStill(ReconnectAll(r, next, more, now).orphans.blocks, next.orphans.blocks, n.orphans.blocks);
      }
    }
  }

  lemma FewerItself(m: map<Hash, Orphan>)
    ensures Fewer(m, m)
  {
  }

  lemma FewerStill(a: map<Hash, Orphan>, b: map<Hash, Orphan>, c: map<Hash, Orphan>)
    requires Fewer(a, b) && Fewer(b, c)
    ensures Fewer(a, c)
  {
  }

  lemma NothingListed(r: Rules, u: Tree, genesis: State, n: NodeState, rest: seq<Hash>, p: Hash)
    requires Underway(r, u, genesis, n, {}) && Pending(n, rest + [p], {}) && p !in n.orphans.children
    ensures Pending(n, rest, {})
  {
    hide Tidy, Partial;
    NoListNoChildren(n.orphans, p);
  }

  lemma ListTakenOff(r: Rules, u: Tree, genesis: State, n: NodeState, rest: seq<Hash>, p: Hash)
    requires Underway(r, u, genesis, n, {}) && Pending(n, rest + [p], {}) && p in n.orphans.children && p in n.core.tree
    ensures
      var kids, dropped := n.orphans.children[p], DropList(n, p);
      && Underway(r, u, genesis, dropped, Rest(kids)) && KidsReady(u, dropped, kids)
      && Pending(dropped, rest, Rest(kids)) && Known(dropped) == Known(n)
  {
    hide Tidy, Partial;
    DropKeepsTidy(n.orphans, p);
    ListIsChildren(n.orphans, p);
  }

  lemma NoListNoChildren(o: Orphans, p: Hash)
    requires Tidy(o, {}) && p !in o.children
    ensures forall h :: h in o.blocks ==> o.blocks[h].block.header.previous != p
  {
  }

  lemma ListIsChildren(o: Orphans, p: Hash)
    requires Tidy(o, {}) && p in o.children
    ensures forall h :: h in o.children[p] <==> h in o.blocks && o.blocks[h].block.header.previous == p
  {
  }

  // ---- Deliveries ----

  /** Between deliveries: nothing waits for a block that is already in the tree. */
  ghost predicate Rested(r: Rules, u: Tree, genesis: State, n: NodeState) {
    Underway(r, u, genesis, n, {}) && Pending(n, [], {})
  }

  lemma DeliveryAbsorbs(r: Rules, u: Tree, genesis: State, n: NodeState, h: Hash, now: nat)
    requires ValidTree(r, u, genesis) && Rested(r, u, genesis, n)
    requires h in u && h != r.genesisHash && WithinOrphanLimits(r, n, u[h].block, now)
    ensures
      var n' := ApplyBlock(r, n, u[h].block, now).0;
      Rested(r, u, genesis, n') && Known(n') == Known(n) + {h} && Aged(n', n, h, now)
  {
    hide ValidTree, ApplyBlock, WithinOrphanLimits, Underway, Pending, Aged;
    if u[h].block.header.previous !in n.core.tree {
      CachedDelivery(r, u, genesis, n, h, now);
    } else if h in n.core.tree {
      RepeatedDelivery(r, u, genesis, n, h, now);
    } else {
      JoinedThenReconnected(r, u, genesis, n, h, now);
    }
  }

  lemma CachedDelivery(r: Rules, u: Tree, genesis: State, n: NodeState, h: Hash, now: nat)
    requires ValidTree(r, u, genesis) && Rested(r, u, genesis, n)
    requires h in u && h != r.genesisHash && WithinOrphanLimits(r, n, u[h].block, now)
    requires u[h].block.header.previous !in n.core.tree
    ensures
      var n' := ApplyBlock(r, n, u[h].block, now).0;
      Rested(r, u, genesis, n') && Known(n') == Known(n) + {h} && Aged(n', n, h, now)
  {
    hide ValidTree, Tidy, Partial, KnownParent, CacheOrphan, ReconnectAll, PruneOrphans, NoneStale, Waiting, Pending,
      Aged;
    NodeFacts(r, u, genesis, h);
    FreshStay(n, now);
    MissingParentReported(r, n.core, u[h].block, now);
    NotYetInTree(r, u, genesis, n.core, h);
    OrphanWaits(r, u, genesis, n, h, now);
  }

  lemma RepeatedDelivery(r: Rules, u: Tree, genesis: State, n: NodeState, h: Hash, now: nat)
    requires ValidTree(r, u, genesis) && Rested(r, u, genesis, n)
    requires h in u && h != r.genesisHash && WithinOrphanLimits(r, n, u[h].block, now)
    requires u[h].block.header.previous in n.core.tree && h in n.core.tree
    ensures
      var n' := ApplyBlock(r, n, u[h].block, now).0;
      Rested(r, u, genesis, n') && Known(n') == Known(n) + {h} && Aged(n', n, h, now)
  {
    hide ValidTree, Tidy, Partial, KnownParent, CacheOrphan, ReconnectAll, PruneOrphans, NoneStale;
    FreshStay(n, now);
    DuplicateReported(r, u, genesis, n.core, h, now);
  }

  lemma MissingParentReported(r: Rules, s: Core, b: Block, now: nat)
    requires b.header.height > 0 && b.header.previous !in s.tree
    ensures KnownParent(r, s, b, now) == (s, Failed(ForkChoiceError(MissingParent)))
  {
    hide CheckState, Insert, Place;
  }

  lemma NotYetInTree(r: Rules, u: Tree, genesis: State, s: Core, h: Hash)
    requires ValidTree(r, u, genesis) && Partial(r, u, genesis, s)
    requires h in u && h != r.genesisHash && u[h].block.header.previous !in s.tree
    ensures h !in s.tree
  {
    NodeFacts(r, u, genesis, h);
    assert forall k :: k in s.tree ==> Linked(s.tree, k);
  }

  lemma DuplicateReported(r: Rules, u: Tree, genesis: State, s: Core, h: Hash, now: nat)
    requires ValidTree(r, u, genesis) && Partial(r, u, genesis, s)
    requires h in s.tree && h != r.genesisHash && u[h].block.header.previous in s.tree
    ensures KnownParent(r, s, u[h].block, now) == (s, Failed(ForkChoiceError(DuplicateBlock)))
  {
    ValidPasses(r, u, genesis, s, h);
    hide CheckState, CheckHeader, Place, ValidTree, Partial;
  }

  lemma JoinedThenReconnected(r: Rules, u: Tree, genesis: State, n: NodeState, h: Hash, now: nat)
    requires ValidTree(r, u, genesis) && Rested(r, u, genesis, n)
    requires h in u && h != r.genesisHash && h !in n.core.tree && u[h].block.header.previous in n.core.tree
    requires WithinOrphanLimits(r, n, u[h].block, now)
    ensures
      var n' := ApplyBlock(r, n, u[h].block, now).0;
      Rested(r, u, genesis, n') && Known(n') == Known(n) + {h} && Aged(n', n, h, now)
  {
    hide ValidTree, Underway, Pending, KnownParent, ApplyBlock, ReconnectAll, PruneOrphans, NoneStale, Known;
    JoinedWaits(r, u, genesis, n, h, now);
    var next := n.(core := KnownParent(r, n.core, u[h].block, now).0);
    FreshStay(n, now);
    FreshStay(next, now);
    AppliedThenProcessed(r, n, u[h].block, now);
    LoopAbsorbs(r, u, genesis, next, [h], now);
  }

  lemma AppliedThenProcessed(r: Rules, n: NodeState, b: Block, now: nat)
    requires PruneOrphans(n, now) == n && KnownParent(r, n.core, b, now).1.Done?
    requires PruneOrphans(n.(core := KnownParent(r, n.core, b, now).0), now) ==
      n.(core := KnownParent(r, n.core, b, now).0)
    ensures ApplyBlock(r, n, b, now).0 ==
      ReconnectAll(r, n.(core := KnownParent(r, n.core, b, now).0), [b.header.hash], now)
  {
    hide PruneOrphans, KnownParent, ReconnectAll;
  }

  lemma JoinedWaits(r: Rules, u: Tree, genesis: State, n: NodeState, h: Hash, now: nat)
    requires ValidTree(r, u, genesis) && Rested(r, u, genesis, n)
    requires h in u && h != r.genesisHash && h !in n.core.tree && u[h].block.header.previous in n.core.tree
    ensures
      var (core, outcome) := KnownParent(r, n.core, u[h].block, now);
      var next := n.(core := core);
      && outcome.Done? && u[h].block.header.hash == h && h in core.tree
      && Underway(r, u, genesis, next, {}) && Pending(next, [h], {}) && Known(next) == Known(n) + {h}
  {
    hide ValidTree, Tidy, Partial, KnownParent;
    NodeFacts(r, u, genesis, h);
    assert h !in n.orphans.blocks;
    ValidBlockJoins(r, u, genesis, n.core, h, now);
  }

  /** Feeding blocks through `apply_block`, each at its own time. */
  function Deliver(r: Rules, n: NodeState, ds: seq<(Block, nat)>): NodeState
    decreases |ds|
  {
    if ds == [] then n else Deliver(r, ApplyBlock(r, n, ds[0].0, ds[0].1).0, ds[1..])
  }

  /** Every delivery is a block of `u` other than genesis. */
  ghost predicate Deliveries(r: Rules, u: Tree, ds: seq<(Block, nat)>) {
    forall i :: 0 <= i < |ds| ==>
      && ds[i].0.header.hash in u && ds[i].0.header.hash != r.genesisHash
      && u[ds[i].0.header.hash].block == ds[i].0
  }

  /** No delivery along the run hits an orphan limit. */
  ghost predicate LimitsKept(r: Rules, n: NodeState, ds: seq<(Block, nat)>)
    decreases |ds|
  {
    ds == [] ||
      (WithinOrphanLimits(r, n, ds[0].0, ds[0].1) && LimitsKept(r, ApplyBlock(r, n, ds[0].0, ds[0].1).0, ds[1..]))
  }

  function Delivered(ds: seq<(Block, nat)>): set<Hash> {
    set i | 0 <= i < |ds| :: ds[i].0.header.hash
  }

  lemma {:induction false} DeliveriesAbsorb(r: Rules, u: Tree, genesis: State, n: NodeState, ds: seq<(Block, nat)>)
    requires ValidTree(r, u, genesis) && Rested(r, u, genesis, n) && Deliveries(r, u, ds) && LimitsKept(r, n, ds)
    ensures Rested(r, u, genesis, Deliver(r, n, ds))
    ensures Known(Deliver(r, n, ds)) == Known(n) + Delivered(ds)
    decreases |ds|
  {
    hide ValidTree, Rested, ApplyBlock, Known;
    if ds != [] {
      var rest := ds[1..];
      assert forall i :: 0 <= i < |rest| ==> rest[i] == ds[i + 1];
      assert Delivered(ds) == {ds[0].0.header.hash} + Delivered(rest) by {
        forall h | h in Delivered(ds) ensures h in {ds[0].0.header.hash} + Delivered(rest) {
          var i :| 0 <= i < |ds| && ds[i].0.header.hash == h;
          if i > 0 { assert rest[i - 1].0.header.hash == h; }
        }
        forall h | h in Delivered(rest) ensures h in Delivered(ds) {
          var i :| 0 <= i < |rest| && rest[i].0.header.hash == h;
          assert ds[i + 1].0.header.hash == h;
        }
      }
      DeliveryAbsorbs(r, u, genesis, n, ds[0].0.header.hash, ds[0].1);
      DeliveriesAbsorb(r, u, genesis, ApplyBlock(r, n, ds[0].0, ds[0].1).0, rest);
    }
  }

  lemma {:induction false} AllInTree(r: Rules, u: Tree, genesis: State, n: NodeState, h: Hash)
    requires ValidTree(r, u, genesis) && Rested(r, u, genesis, n) && Known(n) == u.Keys
    requires r.genesisHash in n.core.tree && h in u
    ensures h in n.core.tree
    decreases Height(u, h)
  {
    hide ValidTree, Partial, Tidy;
    if h != r.genesisHash {
      NodeFacts(r, u, genesis, h);
      AllInTree(r, u, genesis, n, u[h].block.header.previous);
      assert h in Known(n);
    }
  }

  /** A node that holds only the genesis block of `u`. */
  ghost predicate Fresh(r: Rules, u: Tree, genesis: State, n: NodeState) {
    && r.genesisHash in u
    && n.core.tree == map[r.genesisHash := u[r.genesisHash]]
    && n.core.ledger == Ledger(genesis, [u[r.genesisHash].block]) && n.core.genesis == genesis
    && Sound(r, n.core)
    && n.orphans == Orphans(map[], map[])
  }

  lemma FreshIsRested(r: Rules, u: Tree, genesis: State, n: NodeState)
    requires ValidTree(r, u, genesis) && Fresh(r, u, genesis, n)
    ensures Rested(r, u, genesis, n)
  {
    hide Sound, ValidBlock, WellFormed;
    NodeFactsRoot(r, u, genesis);
    assert r.genesisHash in n.core.tree;
    assert BestTip(n.core.tree) == Some(r.genesisHash);
    assert Tidy(n.orphans, {});
  }

  lemma NodeFactsRoot(r: Rules, u: Tree, genesis: State)
    requires ValidTree(r, u, genesis)
    ensures u[r.genesisHash].block.header.hash == r.genesisHash
  {
    hide ValidBlock;
    assert Linked(u, r.genesisHash);
  }

  /** Once all blocks of the tree were delivered, in whatever order and however often, fork
      choice holds exactly the tree, nothing waits, and the active ledger is the replay of its
      best branch. */
  lemma DeliveryCompletes(r: Rules, u: Tree, genesis: State, n: NodeState, ds: seq<(Block, nat)>)
    requires ValidTree(r, u, genesis) && Fresh(r, u, genesis, n)
    requires Deliveries(r, u, ds) && LimitsKept(r, n, ds) && Delivered(ds) + {r.genesisHash} == u.Keys
    ensures
      var n' := Deliver(r, n, ds);
      && n'.core.tree == u && n'.orphans.blocks == map[]
      && Sound(r, n'.core) && InSync(n'.core) && n'.core.genesis == genesis && n'.core.ledger.chain != []
  {
    hide ValidTree, Deliver, Tidy, Sound, InSync;
    FreshIsRested(r, u, genesis, n);
    DeliveriesAbsorb(r, u, genesis, n, ds);
    var n' := Deliver(r, n, ds);
    assert Known(n') == u.Keys;
    assert r.genesisHash in Known(n');
    forall h | h in u ensures h in n'.core.tree {
      AllInTree(r, u, genesis, n', h);
    }
    assert n'.core.tree.Keys == u.Keys;
    assert forall h :: h in n'.orphans.blocks ==> h in u;
  }

  lemma MatchingIsUnique(c: Cache, d: Cache, chain: seq<Block>)
    requires Matches(c, chain) && Matches(d, chain)
    ensures c == d
  {
    assert c.byHeight == d.byHeight;
    forall h | h in c.byHash ensures h in d.byHash && c.byHash[h] == d.byHash[h] {
      assert OnChain(chain, h);
      var i :| 0 <= i < |chain| && chain[i].header.hash == h;
      assert c.byHash[chain[i].header.hash] == chain[i];
    }
    forall h | h in d.byHash ensures h in c.byHash {
      assert OnChain(chain, h);
    }
    assert c.byHash == d.byHash;
  }

  lemma SoundIsDetermined(r: Rules, s: Core, s': Core)
    requires Sound(r, s) && Sound(r, s') && InSync(s) && InSync(s')
    requires s.tree == s'.tree && s.genesis == s'.genesis
    requires s.ledger.chain != [] && s'.ledger.chain != []
    ensures s.ledger == s'.ledger && s.cache == s'.cache
  {
    hide WellFormed, ChainTo, BestTip, Matches, Replay;
    assert s'.ledger.chain == s.ledger.chain;
    MatchingIsUnique(s.cache, s'.cache, s.ledger.chain);
  }

  /** Two complete deliveries of the same tree, in any orders and with any repetitions, end with
      the same fork choice, the same active ledger and the same cache. */
  lemma OrderDoesNotMatter(r: Rules, u: Tree, genesis: State, n: NodeState, ds: seq<(Block, nat)>,
      es: seq<(Block, nat)>)
    requires ValidTree(r, u, genesis) && Fresh(r, u, genesis, n)
    requires Deliveries(r, u, ds) && LimitsKept(r, n, ds) && Delivered(ds) + {r.genesisHash} == u.Keys
    requires Deliveries(r, u, es) && LimitsKept(r, n, es) && Delivered(es) + {r.genesisHash} == u.Keys
    ensures
      var a, b := Deliver(r, n, ds).core, Deliver(r, n, es).core;
      a.tree == b.tree && a.ledger == b.ledger && a.cache == b.cache
  {
    DeliveryCompletes(r, u, genesis, n, ds);
    DeliveryCompletes(r, u, genesis, n, es);
    SoundIsDetermined(r, Deliver(r, n, ds).core, Deliver(r, n, es).core);
  }

  // ---- When the orphan limits are kept ----

  predicate Timely(now: nat, t0: nat) {
    t0 <= now <= t0 + ORPHAN_BLOCK_TTL_SECS
  }

  /** A tree that could wait as a whole. */
  ghost predicate FitsBuffer(u: Tree) {
    |u| <= MAX_ORPHAN_BLOCKS + 1 && forall h :: h in u ==> Height(u, h) <= MAX_ORPHAN_HEIGHT_DISTANCE
  }

  ghost predicate Recent(n: NodeState, t0: nat) {
    forall h :: h in n.orphans.blocks ==> Timely(n.orphans.blocks[h].receivedAt, t0)
  }

  lemma RecentIsFresh(r: Rules, u: Tree, n: NodeState, t0: nat, now: nat)
    requires Waiting(r, u, n) && FitsBuffer(u) && Recent(n, t0) && Timely(now, t0)
    ensures NoneStale(n, now)
  {
    forall h | h in n.orphans.blocks ensures !Stale(n.core.ledger, n.orphans.blocks[h], now) {
      assert Height(u, h) <= MAX_ORPHAN_HEIGHT_DISTANCE;
    }
  }

  lemma RoomLeft(r: Rules, u: Tree, n: NodeState, h: Hash)
    requires Waiting(r, u, n) && FitsBuffer(u) && r.genesisHash in u
    requires h in u && h != r.genesisHash && h !in n.orphans.blocks
    ensures |n.orphans.blocks| < MAX_ORPHAN_BLOCKS
  {
    var keys := n.orphans.blocks.Keys;
    SubsetSize(keys + {h}, u.Keys - {r.genesisHash});
    assert |keys + {h}| == |keys| + 1;
    assert |u.Keys - {r.genesisHash}| == |u.Keys| - 1;
  }

  /** Delivering a tree that fits the buffer within one orphan lifetime hits no limit, in any order. */
  lemma {:induction false} SmallTreeKeepsLimits(r: Rules, u: Tree, genesis: State, n: NodeState, ds: seq<(Block, nat)>,
      t0: nat)
    requires ValidTree(r, u, genesis) && FitsBuffer(u) && Rested(r, u, genesis, n) && Recent(n, t0)
    requires Deliveries(r, u, ds) && forall i :: 0 <= i < |ds| ==> Timely(ds[i].1, t0)
    ensures LimitsKept(r, n, ds)
    decreases |ds|
  {
    hide ValidTree, ApplyBlock, FitsBuffer, Rested, Recent, WithinOrphanLimits, Aged;
    if ds != [] {
      var (b, now) := ds[0];
      StepWithinLimits(r, u, genesis, n, b.header.hash, t0, now);
      DeliveryAbsorbs(r, u, genesis, n, b.header.hash, now);
      AgedIsRecent(ApplyBlock(r, n, b, now).0, n, b.header.hash, t0, now);
      assert forall i :: 0 <= i < |ds[1..]| ==> ds[1..][i] == ds[i + 1];
      SmallTreeKeepsLimits(r, u, genesis, ApplyBlock(r, n, b, now).0, ds[1..], t0);
    }
  }

  lemma AgedIsRecent(n': NodeState, n: NodeState, h: Hash, t0: nat, now: nat)
    requires Aged(n', n, h, now) && Recent(n, t0) && Timely(now, t0)
    ensures Recent(n', t0)
  {
  }

  lemma StepWithinLimits(r: Rules, u: Tree, genesis: State, n: NodeState, h: Hash, t0: nat, now: nat)
    requires ValidTree(r, u, genesis) && FitsBuffer(u) && Rested(r, u, genesis, n) && Recent(n, t0)
    requires h in u && h != r.genesisHash && Timely(now, t0)
    ensures WithinOrphanLimits(r, n, u[h].block, now)
  {
    hide ValidBlock, WellFormed, KnownParent, Partial, Tidy, FitsBuffer, NoneStale, TooFarAhead, Pending;
    NodeFacts(r, u, genesis, h);
    RecentIsFresh(r, u, n, t0, now);
    if u[h].block.header.previous in n.core.tree && h !in n.core.tree {
      JoinedWaits(r, u, genesis, n, h, now);
      var next := n.(core := KnownParent(r, n.core, u[h].block, now).0);
      RecentIsFresh(r, u, next, t0, now);
    } else {
      CoreStays(r, u, genesis, n, h, now);
    }
    if h !in n.orphans.blocks { RoomLeft(r, u, n, h); }
    NearEnough(u, n.core.ledger, h);
  }

  lemma NearEnough(u: Tree, l: Ledger, h: Hash)
    requires FitsBuffer(u) && h in u
    ensures !TooFarAhead(l, u[h].block)
  {
    assert Height(u, h) <= MAX_ORPHAN_HEIGHT_DISTANCE;
  }

  /** A block already there, or whose parent is not, leaves the chain engine as it was. */
  lemma CoreStays(r: Rules, u: Tree, genesis: State, n: NodeState, h: Hash, now: nat)
    requires ValidTree(r, u, genesis) && Rested(r, u, genesis, n) && h in u && h != r.genesisHash
    requires u[h].block.header.previous !in n.core.tree || h in n.core.tree
    ensures KnownParent(r, n.core, u[h].block, now).0 == n.core
  {
    hide ValidTree, KnownParent, Tidy, Partial;
    NodeFacts(r, u, genesis, h);
    if u[h].block.header.previous !in n.core.tree {
      MissingParentReported(r, n.core, u[h].block, now);
    } else {
      DuplicateReported(r, u, genesis, n.core, h, now);
    }
  }

  /** Two deliveries of a tree that fits the buffer, each within one orphan lifetime, end alike. */
  lemma SmallTreeOrderDoesNotMatter(r: Rules, u: Tree, genesis: State, n: NodeState, ds: seq<(Block, nat)>,
      es: seq<(Block, nat)>, t0: nat, t1: nat)
    requires ValidTree(r, u, genesis) && FitsBuffer(u) && Fresh(r, u, genesis, n)
    requires Deliveries(r, u, ds) && Delivered(ds) + {r.genesisHash} == u.Keys
    requires forall i :: 0 <= i < |ds| ==> Timely(ds[i].1, t0)
    requires Deliveries(r, u, es) && Delivered(es) + {r.genesisHash} == u.Keys
    requires forall i :: 0 <= i < |es| ==> Timely(es[i].1, t1)
    ensures
      var a, b := Deliver(r, n, ds).core, Deliver(r, n, es).core;
      a.tree == b.tree == u && a.ledger == b.ledger && a.cache == b.cache
  {
    hide ValidTree, FitsBuffer, Deliver, LimitsKept, Sound, InSync, Rested;
    FreshIsRested(r, u, genesis, n);
    SmallTreeKeepsLimits(r, u, genesis, n, ds, t0);
    SmallTreeKeepsLimits(r, u, genesis, n, es, t1);
    OrderDoesNotMatter(r, u, genesis, n, ds, es);
    DeliveryCompletes(r, u, genesis, n, ds);
  }

  /** Every block comes after its parent. */
  ghost predicate ParentsFirst(known: set<Hash>, ds: seq<(Block, nat)>)
    decreases |ds|
  {
    ds == [] || (ds[0].0.header.previous in known && ParentsFirst(known + {ds[0].0.header.hash}, ds[1..]))
  }

  /** Parents before children, nothing ever waits: no limit is hit however long the tree, however
      slow the delivery. */
  lemma {:induction false} ParentsFirstKeepsLimits(r: Rules, u: Tree, genesis: State, n: NodeState,
      ds: seq<(Block, nat)>)
    requires ValidTree(r, u, genesis) && Rested(r, u, genesis, n) && n.orphans.blocks == map[]
    requires Deliveries(r, u, ds) && ParentsFirst(n.core.tree.Keys, ds)
    ensures LimitsKept(r, n, ds)
    decreases |ds|
  {
    hide ValidTree, ApplyBlock, KnownParent, Partial, Tidy;
    if ds != [] {
      var (b, now) := ds[0];
      var h := b.header.hash;
      DeliveryAbsorbs(r, u, genesis, n, h, now);
      NodeFacts(r, u, genesis, h);
      var n' := ApplyBlock(r, n, b, now).0;
      assert b.header.previous in Known(n') && b.header.previous != h;
      assert h !in n'.orphans.blocks;
      assert n'.orphans.blocks == map[];
      assert n'.core.tree.Keys == n.core.tree.Keys + {h};
      assert forall i :: 0 <= i < |ds[1..]| ==> ds[1..][i] == ds[i + 1];
      ParentsFirstKeepsLimits(r, u, genesis, n', ds[1..]);
    }
  }
}

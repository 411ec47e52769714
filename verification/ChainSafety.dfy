/** What every step of the chain engine keeps, and what no step can undo. */
module ChainSafety {
  import opened Paqus
  import opened ForkTree
  import opened CoreCache
  import opened ChainEngine
  import M = Mempool

  /** The active chain is a branch of the tree, rooted in the expected genesis block. */
  ghost predicate Rooted(r: Rules, s: Core) {
    && WellFormed(s.tree)
    && if s.ledger.chain == [] then s.tree == map[] else
         && TipHash(s.ledger) in s.tree
         && ChainTo(s.tree, TipHash(s.ledger)) == s.ledger.chain
         && r.genesisHash in s.tree && Height(s.tree, r.genesisHash) == 0
  }

  /** The active state is what replaying the active chain from genesis gives, and cache and
      canonical storage hold that chain. */
  ghost predicate Faithful(r: Rules, s: Core) {
    && Matches(s.cache, s.ledger.chain)
    && (s.ledger.chain != [] ==>
         && Replay(r, s.genesis, s.ledger.chain) == Ok(s.ledger.state)
         && s.disk.canonical == Some(s.ledger))
  }

  ghost predicate Sound(r: Rules, s: Core) {
    Rooted(r, s) && Faithful(r, s)
  }

  /** The active tip is fork choice's best tip. */
  ghost predicate InSync(s: Core) {
    BestTip(s.tree) == if s.ledger.chain == [] then None else Some(TipHash(s.ledger))
  }

  /** Inserting `b` makes it the best tip. */
  ghost predicate TakesOver(s: Core, b: Block) {
    Insert(s.tree, b).Ok? && BestTip(Insert(s.tree, b).value) == Some(b.header.hash)
  }

  // ---- Inserting into the tree ----

  lemma AcceptedGrows(r: Rules, s: Core, b: Block, t: Tree)
    requires Lawful(r) && Rooted(r, s) && CheckHeader(r, s, b).None? && Insert(s.tree, b) == Ok(t)
    ensures WellFormed(t) && Within(s.tree, t)
    ensures t.Keys == s.tree.Keys + {b.header.hash} && t[b.header.hash].block == b
    ensures b.header.height == 0 <==> s.ledger.chain == []
    ensures ChainTo(t, b.header.hash) ==
      (if b.header.height == 0 then [] else ChainTo(s.tree, b.header.previous)) + [b]
    ensures s.ledger.chain != [] ==> Rooted(r, s.(tree := t))
  {
    InsertGrows(s.tree, b, t);
    if s.ledger.chain != [] {
      ChainStable(s.tree, t, TipHash(s.ledger));
    }
  }

  // ---- Pruning ----

  lemma PruneKeepsRooted(r: Rules, s: Core)
    requires Rooted(r, s) && s.ledger.chain != []
    ensures Rooted(r, PruneFinalized(r, s))
    ensures Within(PruneFinalized(r, s).tree, s.tree)
    ensures InSync(s) ==> InSync(PruneFinalized(r, s))
  {
    var chain, tip := s.ledger.chain, TipHash(s.ledger);
    ChainShape(s.tree, tip);
    var k := SaturatingSub(|chain| - 1, r.finalityDepth);
    var f := chain[k].header.hash;
    PruneKeeps(s.tree, f);
    var p := Prune(s.tree, f);
    assert OnChain(ChainTo(s.tree, tip), f);
    assert tip in p;
    assert chain[0].header.hash == r.genesisHash by {
      assert Height(s.tree, chain[0].header.hash) == 0;
    }
    ChainShape(p, tip);
    assert ChainTo(p, tip)[0].header.hash in p;
    if InSync(s) {
      BestSurvives(s.tree, p, tip);
    }
  }

  /** What pruning keeps: the active chain up to the finality boundary, and every block on a branch
      through the boundary block. */
  lemma PruneExact(r: Rules, s: Core)
    requires Rooted(r, s) && s.ledger.chain != []
    ensures
      var k := SaturatingSub(|s.ledger.chain| - 1, r.finalityDepth);
      forall h :: h in PruneFinalized(r, s).tree <==>
        && h in s.tree
        && (OnChain(s.ledger.chain[..k + 1], h) || OnChain(ChainTo(s.tree, h), s.ledger.chain[k].header.hash))
  {
    hide WellFormed, OnChain;
    ChainShape(s.tree, TipHash(s.ledger));
  }

  lemma BestSurvives(t: Tree, p: Tree, h: Hash)
    requires Within(p, t) && h in p && BestTip(t) == Some(h)
    ensures BestTip(p) == Some(h)
  {
    assert IsBest(p, h) by {
      forall k | k in p && k != h ensures Beats(p, h, k) { assert Beats(t, h, k); }
    }
  }

  // ---- Extending the active chain ----

  lemma ExtensionReplays(r: Rules, s: Core, b: Block, staged: Ledger)
    requires Lawful(r) && Faithful(r, s) && ExecuteOn(r, s.ledger, b) == Ok(staged)
    requires b.header.height == 0 <==> s.ledger.chain == []
    ensures staged.chain == s.ledger.chain + [b]
    ensures
      var genesis := if b.header.height == 0 then r.accountsOf(staged.state) else s.genesis;
      Replay(r, genesis, staged.chain) == Ok(staged.state)
  {
    assert (s.ledger.chain + [b])[..|s.ledger.chain|] == s.ledger.chain;
  }

  lemma ExtendKeepsSound(r: Rules, s: Core, b: Block, t: Tree, staged: Ledger)
    requires Lawful(r) && Sound(r, s) && CheckHeader(r, s, b).None? && Insert(s.tree, b) == Ok(t)
    requires BestTip(t) == Some(b.header.hash)
    requires ExtendsTip(s.ledger, b) && ExecuteOn(r, s.ledger, b) == Ok(staged)
    ensures
      var s' := Extend(r, s.(tree := t), b, staged);
      Sound(r, s') && InSync(s') && s'.ledger.chain == s.ledger.chain + [b]
  {
    hide ChainTo, Matches, Replay, WellFormed, BestTip, Insert, Lawful;
    AcceptedGrows(r, s, b, t);
    ExtensionReplays(r, s, b, staged);
    var e := Extended(r, s.(tree := t), b, staged);
    assert e.ledger.chain == ChainTo(t, b.header.hash);
    ChainIsNumbered(t, b.header.hash);
    InsertMatches(s.cache, s.ledger.chain, b);
    assert Faithful(r, e);
    assert Rooted(r, e);
    PruneKeepsRooted(r, e);
  }

  // ---- Switching branches ----

  /** What a reorganization that got past the finality check works with. */
  lemma ReorgSetting(r: Rules, s: Core, best: Hash)
    requires Rooted(r, s) && s.ledger.chain != [] && BestTip(s.tree) == Some(best)
    ensures
      var n := Shared(s.ledger.chain, ChainTo(s.tree, best));
      && n > 0
      && CommonAncestor(s.tree, TipHash(s.ledger), best) == Some(s.ledger.chain[n - 1].header.hash)
      && s.ledger.chain[n - 1].header.hash in s.tree
      && Height(s.tree, s.ledger.chain[n - 1].header.hash) == n - 1
      && BranchFrom(s.tree, s.ledger.chain[n - 1].header.hash, best) == Some(ChainTo(s.tree, best)[n..])
  {
    CommonAncestorIsHighest(s.tree, TipHash(s.ledger), best);
    ChainShape(s.tree, TipHash(s.ledger));
    ChainShape(s.tree, best);
  }

  lemma BestLedgerIsSound(r: Rules, s: Core, best: Hash, l: Ledger)
    requires Rooted(r, s) && s.ledger.chain != []
    requires BestTip(s.tree) == Some(best) && LedgerForTip(r, s, best) == Ok(l)
    ensures Sound(r, SwitchTo(s, l)) && InSync(SwitchTo(s, l))
    ensures l.chain == ChainTo(s.tree, best) && l.chain != [] && TipHash(l) == best
  {
    ChainShape(s.tree, best);
    ChainIsNumbered(s.tree, best);
    FromChainMatches(l.chain);
  }

  lemma SwitchKeepsSound(r: Rules, s: Core, best: Hash, now: nat)
    requires Sound(r, s) && s.ledger.chain != [] && BestTip(s.tree) == Some(best)
    ensures
      var (s', outcome) := Switch(r, s, best, now);
      && Sound(r, s') && s'.ledger.chain != []
      && (outcome.Done? ==> InSync(s'))
      && (s' == s || s'.ledger.chain == ChainTo(s.tree, best))
      && outcome != Failed(FinalityViolation) && outcome != Failed(MissingStagedLedger)
  {
    hide Recover, ChainTo, BestTip, WellFormed, Matches;
    match LedgerForTip(r, s, best)
    case Err(e) =>
    case Ok(l) =>
      BestLedgerIsSound(r, s, best, l);
      RecoverKeepsSound(r, SwitchTo(s, l), s.ledger.chain, now);
  }

  lemma NotingKeepsSound(r: Rules, s: Core, best: Hash, ancestor: Hash)
    requires Sound(r, s) && s.ledger.chain != []
    ensures Sound(r, NoteContext(s, best, ancestor))
  {
    hide ChainTo, Headers, Matches, WellFormed, Replay;
  }

  /** A reorganization either leaves ledger, cache and canonical storage alone, or moves all of
      them to the best branch without dropping a block below the finality boundary. */
  lemma ReorgKeepsSound(r: Rules, s: Core, now: nat)
    requires Sound(r, s) && s.ledger.chain != []
    ensures
      var (s', outcome) := Reorg(r, s, now);
      && Sound(r, s') && s'.ledger.chain != []
      && (outcome.Done? ==> InSync(s'))
      && (outcome == Failed(FinalityViolation) ==> s' == s)
      && outcome != Failed(MissingStagedLedger)
      && (SameActive(s, s') || MovedToBest(r, s, s'))
  {
    hide Switch, ChainTo, CommonAncestor, BranchFrom, Shared, Height, WellFormed, Faithful, Headers;
    var best := BestTip(s.tree).value;
    ReorgSetting(r, s, best);
    var n := Shared(s.ledger.chain, ChainTo(s.tree, best));
    var ancestor := s.ledger.chain[n - 1].header.hash;
    if !CrossesFinality(r, s, ancestor) {
      var noted := NoteContext(s, best, ancestor);
      NotingKeepsSound(r, s, best, ancestor);
      SwitchKeepsSound(r, noted, best, now);
    }
  }

  ghost predicate SameActive(s: Core, s': Core) {
    s'.ledger == s.ledger && s'.cache == s.cache && s'.disk.canonical == s.disk.canonical
  }

  ghost predicate MovedToBest(r: Rules, s: Core, s': Core) {
    && s.ledger.chain != []
    && BestTip(s.tree).Some?
    && s'.ledger.chain == ChainTo(s.tree, BestTip(s.tree).value)
    && 0 < Shared(s.ledger.chain, s'.ledger.chain)
    && |s.ledger.chain| - 1 <= Shared(s.ledger.chain, s'.ledger.chain) - 1 + r.finalityDepth
  }

  predicate RecoveryOutcome(o: Outcome) {
    o == Done || o == Failed(TransactionIndexOverflow) || o == Failed(ProofError)
  }

  lemma {:induction false} RecoverTxsOutcome(r: Rules, l: Ledger, rec: Recovery, b: Block, i: nat, now: nat)
    requires i <= |b.body.txs|
    ensures RecoveryOutcome(RecoverTxs(r, l, rec, b, i, now).1)
    decreases |b.body.txs| - i
  {
    hide Retry;
    if i < |b.body.txs| && i <= U32_MAX && r.proofOk(b, i) {
      var key := (b.header.hash, b.body.txs[i].hash);
      RecoverTxsOutcome(r, l, Retry(r, l, rec, key, Opened(rec, b, i, now), now), b, i + 1, now);
    }
  }

  lemma {:induction false} RecoverBlocksOutcome(r: Rules, l: Ledger, rec: Recovery, blocks: seq<Block>, now: nat)
    ensures RecoveryOutcome(RecoverBlocks(r, l, rec, blocks, now).1)
    decreases |blocks|
  {
    if blocks != [] {
      RecoverTxsOutcome(r, l, rec, blocks[0], 0, now);
      RecoverBlocksOutcome(r, l, rec, blocks[1..], now);
      RecoverBlocksOutcome(r, l, RecoverTxs(r, l, rec, blocks[0], 0, now).0, blocks[1..], now);
    }
  }

  lemma RecoverKeepsSound(r: Rules, s: Core, losing: seq<Block>, now: nat)
    requires Sound(r, s) && s.ledger.chain != [] && InSync(s)
    ensures
      var (s', outcome) := Recover(r, s, losing, now);
      && Sound(r, s') && InSync(s')
      && s'.ledger == s.ledger && s'.cache == s.cache
      && RecoveryOutcome(outcome)
  {
    hide RecoverBlocks, WellFormed, Matches, Replay, ChainTo, BestTip, Prune;
    RecoverBlocksOutcome(r, s.ledger, Recovery(s.pool, s.disk.issues), losing, now);
    var (rec, outcome) := RecoverBlocks(r, s.ledger, Recovery(s.pool, s.disk.issues), losing, now);
    var recovered := s.(pool := rec.pool, disk := s.disk.(issues := rec.issues), reorgs := Min(s.reorgs + 1, U64_MAX));
    assert Sound(r, recovered) && InSync(recovered);
    PruneKeepsRooted(r, recovered);
  }

  // ---- One step ----

  ghost predicate ActiveMoves(r: Rules, s: Core, b: Block, s': Core) {
    || SameActive(s, s')
    || s'.ledger.chain == s.ledger.chain + [b]
    || (Insert(s.tree, b).Ok? && MovedToBest(r, s.(tree := Insert(s.tree, b).value), s'))
  }

  /** What `KnownParent` guarantees about the state it leaves, whatever the outcome. */
  ghost predicate StepGuarantee(r: Rules, s: Core, b: Block, s': Core, outcome: Outcome) {
    && Sound(r, s')
    && (s.ledger.chain != [] ==> s'.ledger.chain != [])
    && ActiveMoves(r, s, b, s')
    && outcome != Failed(MissingStagedLedger)
    && (outcome.Done? ==> (InSync(s') <==> InSync(s) || TakesOver(s, b)))
    && (outcome == Failed(FinalityViolation) ==>
         Insert(s.tree, b).Ok? && s' == s.(tree := Insert(s.tree, b).value))
  }

  lemma SidePlaced(r: Rules, s: Core, b: Block, t: Tree, staged: Option<Ledger>, now: nat)
    requires Lawful(r) && Sound(r, s) && CheckHeader(r, s, b).None? && Insert(s.tree, b) == Ok(t)
    requires BestTip(t) != Some(b.header.hash)
    ensures
      var (s', outcome) := Place(r, s.(tree := t), b, staged, now);
      StepGuarantee(r, s, b, s', outcome) && outcome.Done?
  {
    hide WellFormed, Matches, Replay, ChainTo, BestTip, Reorg, Extend;
    AcceptedGrows(r, s, b, t);
    BestAfterInsert(s.tree, b, t);
  }

  lemma ReorgPlaced(r: Rules, s: Core, b: Block, t: Tree, staged: Option<Ledger>, now: nat)
    requires Lawful(r) && Sound(r, s) && CheckHeader(r, s, b).None? && Insert(s.tree, b) == Ok(t)
    requires BestTip(t) == Some(b.header.hash) && !ExtendsTip(s.ledger, b)
    ensures
      var (s', outcome) := Place(r, s.(tree := t), b, staged, now);
      StepGuarantee(r, s, b, s', outcome)
  {
    AcceptedGrows(r, s, b, t);
    ReorgKeepsSound(r, s.(tree := t), now);
    hide WellFormed, Matches, Replay, ChainTo, BestTip, Reorg, Extend;
  }

  lemma ExtendPlaced(r: Rules, s: Core, b: Block, t: Tree, staged: Ledger, now: nat)
    requires Lawful(r) && Sound(r, s) && CheckHeader(r, s, b).None? && Insert(s.tree, b) == Ok(t)
    requires BestTip(t) == Some(b.header.hash)
    requires ExtendsTip(s.ledger, b) && ExecuteOn(r, s.ledger, b) == Ok(staged)
    ensures
      var (s', outcome) := Place(r, s.(tree := t), b, Some(staged), now);
      StepGuarantee(r, s, b, s', outcome)
  {
    ExtendKeepsSound(r, s, b, t, staged);
    hide Sound, InSync, BestTip, Extend, Reorg;
  }

  /** How the checks fail, and when they stage a ledger. */
  lemma ChecksFail(r: Rules, s: Core, b: Block)
    ensures CheckHeader(r, s, b).Some? ==> CheckHeader(r, s, b).value !in {FinalityViolation, MissingStagedLedger}
    ensures CheckState(r, s, b).Err? ==> CheckState(r, s, b).error !in {FinalityViolation, MissingStagedLedger}
    ensures CheckState(r, s, b).Ok? && ExtendsTip(s.ledger, b) ==>
      CheckState(r, s, b).value.Some? && ExecuteOn(r, s.ledger, b) == Ok(CheckState(r, s, b).value.value)
  {
    hide ChainTo, Replay;
  }

  /** Every step, successful or not, leaves a sound node; a successful one leaves it in sync
      exactly when it was in sync before or the new block took over; the staged ledger is never
      missing; and a reorganization refused for finality changes the tree alone. */
  lemma StepIsSound(r: Rules, s: Core, b: Block, now: nat)
    requires Lawful(r) && Sound(r, s)
    ensures StepGuarantee(r, s, b, KnownParent(r, s, b, now).0, KnownParent(r, s, b, now).1)
  {
    hide Sound, InSync, BestTip, Place, CheckState, CheckHeader, Insert;
    ChecksFail(r, s, b);
    if CheckHeader(r, s, b).None? && CheckState(r, s, b).Ok? && Insert(s.tree, b).Ok? {
      var t, staged := Insert(s.tree, b).value, CheckState(r, s, b).value;
      if BestTip(t) != Some(b.header.hash) {
        SidePlaced(r, s, b, t, staged, now);
      } else if !ExtendsTip(s.ledger, b) {
        ReorgPlaced(r, s, b, t, staged, now);
      } else {
        ExtendPlaced(r, s, b, t, staged.value, now);
      }
    }
  }

  // ---- Finality ----

  function FinalHeight(r: Rules, chain: seq<Block>): nat
    requires chain != []
  {
    SaturatingSub(|chain| - 1, r.finalityDepth)
  }

  /** The blocks at or below the finality boundary of `chain`. */
  function Finalized(r: Rules, chain: seq<Block>): seq<Block>
    requires chain != []
  {
    chain[..FinalHeight(r, chain) + 1]
  }

  /** No step rewrites a block at or below the finality boundary it started with. */
  lemma FinalityHolds(r: Rules, s: Core, b: Block, now: nat)
    requires Lawful(r) && Sound(r, s) && s.ledger.chain != []
    ensures KnownParent(r, s, b, now).0.ledger.chain != []
    ensures Finalized(r, s.ledger.chain) <= KnownParent(r, s, b, now).0.ledger.chain
  {
    var s' := KnownParent(r, s, b, now).0;
    StepIsSound(r, s, b, now);
    MovesKeepFinalized(r, s, b, s');
  }

  lemma MovesKeepFinalized(r: Rules, s: Core, b: Block, s': Core)
    requires ActiveMoves(r, s, b, s') && s.ledger.chain != []
    ensures Finalized(r, s.ledger.chain) <= s'.ledger.chain
  {
    var chain, chain' := s.ledger.chain, s'.ledger.chain;
    var n := Shared(chain, chain');
    assert chain[..n] == chain'[..n];
    if chain' != chain && chain' != chain + [b] {
      assert FinalHeight(r, chain) + 1 <= n;
      assert Finalized(r, chain) == chain[..n][..FinalHeight(r, chain) + 1];
    }
  }

  /** The step moves to another branch: the block passes its checks and becomes the best tip
      without extending the active one, the switch respects finality and the branch replays. */
  ghost predicate Switches(r: Rules, s: Core, b: Block)
    requires s.ledger.chain != []
  {
    && CheckHeader(r, s, b).None? && CheckState(r, s, b).Ok? && TakesOver(s, b) && !ExtendsTip(s.ledger, b)
    && var grown := s.(tree := Insert(s.tree, b).value);
    && var ancestor := CommonAncestor(grown.tree, TipHash(s.ledger), b.header.hash);
    && ancestor.Some? && !CrossesFinality(r, grown, ancestor.value)
    && LedgerForTip(r, grown, b.header.hash).Ok?
  }

  lemma ReorgChain(r: Rules, s: Core, best: Hash, now: nat)
    requires Sound(r, s) && s.ledger.chain != [] && BestTip(s.tree) == Some(best)
    ensures
      var ancestor := CommonAncestor(s.tree, TipHash(s.ledger), best);
      Reorg(r, s, now).0.ledger.chain ==
        if ancestor.Some? && !CrossesFinality(r, s, ancestor.value) && LedgerForTip(r, s, best).Ok?
        then ChainTo(s.tree, best) else s.ledger.chain
  {
    hide ChainTo, CommonAncestor, BranchFrom, WellFormed, Faithful, BestTip, Recover, Shared;
    ReorgSetting(r, s, best);
    var ancestor := CommonAncestor(s.tree, TipHash(s.ledger), best).value;
    var noted := NoteContext(s, best, ancestor);
    if !CrossesFinality(r, s, ancestor) && LedgerForTip(r, s, best).Ok? {
      var l := LedgerForTip(r, noted, best).value;
      BestLedgerIsSound(r, noted, best, l);
      RecoverKeepsSound(r, SwitchTo(noted, l), s.ledger.chain, now);
    }
  }

  /** What a reorganization does to fork choice and the blocks on disk. */
  lemma ReorgStores(r: Rules, s: Core, best: Hash, now: nat)
    requires Sound(r, s) && s.ledger.chain != [] && BestTip(s.tree) == Some(best)
    ensures
      var s' := Reorg(r, s, now).0;
      var ancestor := CommonAncestor(s.tree, TipHash(s.ledger), best);
      var l := LedgerForTip(r, s, best);
      && s'.genesis == s.genesis
      && if ancestor.Some? && !CrossesFinality(r, s, ancestor.value) && l.Ok?
         then Within(s'.tree, s.tree) && s'.disk.blocks == SaveLedger(s.disk, l.value).blocks
         else s'.tree == s.tree && s'.disk.blocks == s.disk.blocks
  {
    hide ChainTo, CommonAncestor, BranchFrom, WellFormed, Faithful, BestTip, RecoverBlocks, Shared, Headers, Replay,
      BlockHashes, BlockWithHash, FromChain, Prune, OnChain;
    ReorgSetting(r, s, best);
    var ancestor := CommonAncestor(s.tree, TipHash(s.ledger), best).value;
    var noted := NoteContext(s, best, ancestor);
    if !CrossesFinality(r, s, ancestor) && LedgerForTip(r, s, best).Ok? {
      var l := LedgerForTip(r, noted, best).value;
      BestLedgerIsSound(r, noted, best, l);
      var moved := SwitchTo(noted, l);
      var rec := RecoverBlocks(r, l, Recovery(moved.pool, moved.disk.issues), s.ledger.chain, now).0;
      PruneKeepsRooted(r, moved.(pool := rec.pool, disk := moved.disk.(issues := rec.issues),
        reorgs := Min(moved.reorgs + 1, U64_MAX)));
    }
  }

  /** Where a step leaves the active chain. */
  lemma StepChain(r: Rules, s: Core, b: Block, now: nat)
    requires Lawful(r) && Sound(r, s) && s.ledger.chain != []
    ensures
      var chain' := KnownParent(r, s, b, now).0.ledger.chain;
      if Switches(r, s, b) then chain' == ChainTo(Insert(s.tree, b).value, b.header.hash)
      else chain' == s.ledger.chain || chain' == s.ledger.chain + [b]
  {
    hide ChainTo, CommonAncestor, WellFormed, Matches, Replay, BestTip, Reorg, Extend, CheckState, CheckHeader, Insert,
      LedgerForTip, Lawful;
    ChecksFail(r, s, b);
    if CheckHeader(r, s, b).None? && CheckState(r, s, b).Ok? && TakesOver(s, b) {
      var t := Insert(s.tree, b).value;
      if ExtendsTip(s.ledger, b) {
        ExtendKeepsSound(r, s, b, t, CheckState(r, s, b).value.value);
      } else {
        AcceptedGrows(r, s, b, t);
        ReorgChain(r, s.(tree := t), b.header.hash, now);
      }
    }
  }

  /** A step fails to carry the finalized prefix over exactly when it switches to a block so much
      lower than the active tip that the finality boundary drops. */
  lemma FinalizedGrowsIff(r: Rules, s: Core, b: Block, now: nat)
    requires Lawful(r) && Sound(r, s) && s.ledger.chain != []
    ensures KnownParent(r, s, b, now).0.ledger.chain != []
    ensures
      Finalized(r, s.ledger.chain) <= Finalized(r, KnownParent(r, s, b, now).0.ledger.chain) <==>
        !(Switches(r, s, b) && SaturatingSub(b.header.height, r.finalityDepth) < FinalHeight(r, s.ledger.chain))
  {
    hide KnownParent, ChainTo, Insert, WellFormed, CheckState, LedgerForTip, CommonAncestor, BestTip, Faithful, Lawful;
    FinalityHolds(r, s, b, now);
    StepChain(r, s, b, now);
    if Switches(r, s, b) {
      var t := Insert(s.tree, b).value;
      AcceptedGrows(r, s, b, t);
      ChainShape(t, b.header.hash);
    }
  }

  /** Feeding blocks one after the other, each with the time it is handled. */
  function Feed(r: Rules, s: Core, inputs: seq<(Block, nat)>): Core
    decreases |inputs|
  {
    if inputs == [] then s
    else Feed(r, KnownParent(r, s, inputs[0].0, inputs[0].1).0, inputs[1..])
  }

  /** The tip never gets lower along the run. */
  ghost predicate TipNeverDrops(r: Rules, s: Core, inputs: seq<(Block, nat)>)
    decreases |inputs|
  {
    inputs == [] ||
      var s' := KnownParent(r, s, inputs[0].0, inputs[0].1).0;
      |s.ledger.chain| <= |s'.ledger.chain| && TipNeverDrops(r, s', inputs[1..])
  }

  /** No step of the run starts from a finality boundary below `height`. */
  ghost predicate BoundaryHolds(r: Rules, s: Core, inputs: seq<(Block, nat)>, height: nat)
    decreases |inputs|
  {
    inputs != [] ==>
      && s.ledger.chain != [] && height <= FinalHeight(r, s.ledger.chain)
      && BoundaryHolds(r, KnownParent(r, s, inputs[0].0, inputs[0].1).0, inputs[1..], height)
  }

  /** Blocks once below the boundary stay on the active chain for as long as the boundary does not
      fall below them again. */
  lemma {:induction false} PrefixSurvives(r: Rules, s: Core, inputs: seq<(Block, nat)>, prefix: seq<Block>)
    requires Lawful(r) && Sound(r, s) && s.ledger.chain != []
    requires prefix != [] && prefix <= s.ledger.chain && BoundaryHolds(r, s, inputs, |prefix| - 1)
    ensures prefix <= Feed(r, s, inputs).ledger.chain
    decreases |inputs|
  {
    hide Sound, KnownParent, ActiveMoves, InSync, TakesOver;
    if inputs != [] {
      var (b, now) := inputs[0];
      var s' := KnownParent(r, s, b, now).0;
      StepIsSound(r, s, b, now);
      FinalityHolds(r, s, b, now);
      assert prefix == Finalized(r, s.ledger.chain)[..|prefix|];
      assert Finalized(r, s.ledger.chain) == s'.ledger.chain[..FinalHeight(r, s.ledger.chain) + 1];
      PrefixSurvives(r, s', inputs[1..], prefix);
    }
  }

  /** Along every run the node stays sound; while the boundary does not fall below where it was at
      the start, no block finalized at the start is rewritten; and while the tip does not drop the
      finalized prefix only grows. */
  lemma {:induction false} RunKeepsFinalized(r: Rules, s: Core, inputs: seq<(Block, nat)>)
    requires Lawful(r) && Sound(r, s) && s.ledger.chain != []
    ensures Sound(r, Feed(r, s, inputs)) && Feed(r, s, inputs).ledger.chain != []
    ensures BoundaryHolds(r, s, inputs, FinalHeight(r, s.ledger.chain)) ==>
      Finalized(r, s.ledger.chain) <= Feed(r, s, inputs).ledger.chain
    ensures TipNeverDrops(r, s, inputs) ==>
      && BoundaryHolds(r, s, inputs, FinalHeight(r, s.ledger.chain))
      && Finalized(r, s.ledger.chain) <= Finalized(r, Feed(r, s, inputs).ledger.chain)
    decreases |inputs|
  {
    hide Sound, KnownParent, ActiveMoves, InSync, TakesOver;
    if inputs != [] {
      var (b, now) := inputs[0];
      var s' := KnownParent(r, s, b, now).0;
      StepIsSound(r, s, b, now);
      FinalityHolds(r, s, b, now);
      RunKeepsFinalized(r, s', inputs[1..]);
      if BoundaryHolds(r, s, inputs, FinalHeight(r, s.ledger.chain)) {
        PrefixSurvives(r, s, inputs, Finalized(r, s.ledger.chain));
      }
      if TipNeverDrops(r, s, inputs) {
        BoundaryWeakens(r, s', inputs[1..], FinalHeight(r, s'.ledger.chain), FinalHeight(r, s.ledger.chain));
      }
    }
  }

  lemma {:induction false} BoundaryWeakens(r: Rules, s: Core, inputs: seq<(Block, nat)>, high: nat, low: nat)
    requires BoundaryHolds(r, s, inputs, high) && low <= high
    ensures BoundaryHolds(r, s, inputs, low)
    decreases |inputs|
  {
    hide KnownParent;
    if inputs != [] {
      BoundaryWeakens(r, KnownParent(r, s, inputs[0].0, inputs[0].1).0, inputs[1..], high, low);
    }
  }
}

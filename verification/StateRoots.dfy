/** Which blocks a step accepts, in terms of the consensus rules alone: above all, no block gets in
    without the state root that its own branch leads to. */
module StateRoots {
  import opened Paqus
  import opened ForkTree
  import opened CoreCache
  import opened ChainEngine
  import opened ChainSafety
  import M = Mempool

  /** `b` carries the root of the state after it, on top of the replayed chain `before`. */
  ghost predicate Commits(r: Rules, genesis: State, before: seq<Block>, b: Block) {
    && before != [] && Replay(r, genesis, before).Ok?
    && r.rootAfter(Replay(r, genesis, before).value, before, b) == Ok(b.header.stateRoot)
    && b.header.stateRoot != ZERO_HASH
  }

  /** The consensus rules accept the header: on its own for genesis, against its parent above. */
  ghost predicate HeaderHolds(r: Rules, s: Core, b: Block) {
    if b.header.height == 0 then r.genesisOk(b) && b.header.hash == r.genesisHash
    else b.header.previous in s.tree && r.nextOk(b, s.tree[b.header.previous].block)
  }

  /** The ledger a block is checked against: its branch replayed from the genesis accounts, or the
      empty ledger for a first block. */
  ghost function ParentLedger(r: Rules, s: Core, b: Block): Result<Ledger, LedgerError> {
    if b.header.height == 0 then Ok(s.ledger) else
    var before := ChainTo(s.tree, b.header.previous);
    if before == [] then Err(Refused) else
    match Replay(r, s.genesis, before)
    case Err(e) => Err(e)
    case Ok(state) => Ok(Ledger(state, before))
  }

  /** The root does not match what the parent's ledger leads to, or is missing above genesis. */
  ghost predicate WrongRoot(r: Rules, l: Ledger, b: Block) {
    var root := r.rootAfter(l.state, l.chain, b);
    root.Ok? && (b.header.stateRoot != root.value || (b.header.height > 0 && b.header.stateRoot == ZERO_HASH))
  }

  /** The block can be executed on its parent's ledger as far as the step tries to: it does so only
      when the block extends the active chain. */
  ghost predicate Executes(r: Rules, s: Core, l: Ledger, b: Block) {
    l.chain == s.ledger.chain ==> r.execute(l.state, l.chain, b).Ok?
  }

  /** Everything the step asks of a block but that it be new. */
  ghost predicate Admissible(r: Rules, s: Core, b: Block) {
    && HeaderHolds(r, s, b)
    && ParentLedger(r, s, b).Ok?
    && var l := ParentLedger(r, s, b).value;
    && r.rootAfter(l.state, l.chain, b) == Ok(b.header.stateRoot)
    && (b.header.height > 0 ==> b.header.stateRoot != ZERO_HASH)
    && Executes(r, s, l, b)
  }

  ghost predicate Acceptable(r: Rules, s: Core, b: Block) {
    Admissible(r, s, b) && b.header.hash !in s.tree
  }

  // ---- What the checks check ----

  lemma HeaderChecked(r: Rules, s: Core, b: Block)
    ensures CheckHeader(r, s, b).None? <==> HeaderHolds(r, s, b)
    ensures CheckHeader(r, s, b) == Some(ForkChoiceError(MissingParent)) <==>
      b.header.height > 0 && b.header.previous !in s.tree
    ensures CheckHeader(r, s, b).Some? ==>
      CheckHeader(r, s, b).value in {ForkChoiceError(MissingParent), ConsensusError}
  {
  }

  /** A block above genesis extends the active tip exactly when its parent's branch is the active
      chain, and the branch's ledger is then the active one. */
  lemma ParentIsActive(r: Rules, s: Core, b: Block)
    requires Sound(r, s) && s.ledger.chain != [] && b.header.height > 0 && b.header.previous in s.tree
    ensures ExtendsTip(s.ledger, b) <==> ChainTo(s.tree, b.header.previous) == s.ledger.chain
    ensures ChainTo(s.tree, b.header.previous) != []
    ensures ExtendsTip(s.ledger, b) ==> ParentLedger(r, s, b) == Ok(s.ledger)
  {
    assert Linked(s.tree, b.header.previous);
    hide WellFormed, Matches, ChainTo;
    ChainShape(s.tree, b.header.previous);
    ChainShape(s.tree, TipHash(s.ledger));
  }

  lemma RootChecked(r: Rules, l: Ledger, b: Block)
    ensures CheckRoot(r, l, b).None? <==>
      r.rootAfter(l.state, l.chain, b) == Ok(b.header.stateRoot)
      && (b.header.height > 0 ==> b.header.stateRoot != ZERO_HASH)
    ensures CheckRoot(r, l, b) == Some(InvalidStateRoot) <==> WrongRoot(r, l, b)
    ensures CheckRoot(r, l, b).Some? ==>
      CheckRoot(r, l, b).value.InvalidStateRoot? || CheckRoot(r, l, b).value.LedgerFailure?
  {
  }

  /** The state check of a block above genesis, for a node that has a chain. */
  lemma StateChecked(r: Rules, s: Core, b: Block)
    requires Sound(r, s) && s.ledger.chain != [] && b.header.height > 0 && b.header.previous in s.tree
    ensures
      var checked, parent := CheckState(r, s, b), ParentLedger(r, s, b);
      && (checked.Ok? <==>
           && parent.Ok?
           && r.rootAfter(parent.value.state, parent.value.chain, b) == Ok(b.header.stateRoot)
           && b.header.stateRoot != ZERO_HASH
           && Executes(r, s, parent.value, b))
      && (checked == Err(InvalidStateRoot) <==> parent.Ok? && WrongRoot(r, parent.value, b))
      && (checked.Err? ==> checked.error.InvalidStateRoot? || checked.error.LedgerFailure?)
  {
    hide Sound, ChainTo, Replay, CheckRoot;
    ParentIsActive(r, s, b);
    if ParentLedger(r, s, b).Ok? {
      RootChecked(r, ParentLedger(r, s, b).value, b);
    }
  }

  /** The state check of a first block, and of a genesis block that comes when there is a chain. */
  lemma FirstChecked(r: Rules, s: Core, b: Block)
    requires Rooted(r, s) && b.header.height == 0
    ensures s.ledger.chain == [] ==>
      && (CheckState(r, s, b).Ok? <==>
           && r.rootAfter(s.ledger.state, [], b) == Ok(b.header.stateRoot) && r.execute(s.ledger.state, [], b).Ok?)
      && (CheckState(r, s, b) == Err(InvalidStateRoot) <==> WrongRoot(r, s.ledger, b))
    ensures s.ledger.chain != [] && b.header.hash == r.genesisHash ==> Insert(s.tree, b) == Err(DuplicateBlock)
  {
    hide ChainTo, WellFormed, Replay;
  }

  // ---- What a step accepts ----

  /** The checks a step makes, taken together, are those of `Acceptable`. */
  lemma ChecksAre(r: Rules, s: Core, b: Block)
    requires Lawful(r) && Sound(r, s)
    ensures Acceptable(r, s, b) <==>
      CheckHeader(r, s, b).None? && CheckState(r, s, b).Ok? && Insert(s.tree, b).Ok?
  {
    hide Sound, ChainTo, Replay, CheckHeader, CheckState, Lawful;
    HeaderChecked(r, s, b);
    SoundIsRooted(r, s);
    if b.header.height == 0 {
      FirstChecked(r, s, b);
    } else if b.header.previous in s.tree {
      StateChecked(r, s, b);
    }
  }

  lemma SoundIsRooted(r: Rules, s: Core)
    requires Sound(r, s)
    ensures Rooted(r, s) && (s.ledger.chain == [] ==> s.tree == map[])
    ensures s.ledger.chain != [] ==> r.genesisHash in s.tree
  {
    hide ChainTo, WellFormed, Faithful;
  }

  /** A step's answer to a block: a new one gets into fork choice exactly when it is acceptable; only
      then can the step succeed, and otherwise it changes nothing. */
  ghost predicate Answers(r: Rules, s: Core, b: Block, s': Core, outcome: Outcome) {
    && (outcome.Done? ==> Acceptable(r, s, b))
    && (!Acceptable(r, s, b) ==> s' == s && outcome.Failed?)
    && (b.header.hash !in s.tree ==> (b.header.hash in s'.tree <==> Acceptable(r, s, b)))
  }

  /** Every step answers so. A wrong state root in particular is refused. */
  lemma AcceptedIff(r: Rules, s: Core, b: Block, now: nat)
    requires Lawful(r) && Sound(r, s)
    ensures Answers(r, s, b, KnownParent(r, s, b, now).0, KnownParent(r, s, b, now).1)
  {
    hide Sound, ChainTo, Replay, CheckHeader, CheckState, Lawful, Place, Acceptable, Insert;
    ChecksAre(r, s, b);
    if Acceptable(r, s, b) {
      AcceptedStays(r, s, b, now);
    }
  }

  lemma AcceptedStays(r: Rules, s: Core, b: Block, now: nat)
    requires Lawful(r) && Sound(r, s)
    requires CheckHeader(r, s, b).None? && CheckState(r, s, b).Ok? && Insert(s.tree, b).Ok?
    ensures b.header.hash in KnownParent(r, s, b, now).0.tree
  {
    hide ChainTo, Replay, CheckHeader, CheckState, Lawful, Insert, WellFormed, Matches, Reorg, Extend, BestTip;
    var t, staged := Insert(s.tree, b).value, CheckState(r, s, b).value;
    AcceptedGrows(r, s, b, t);
    ChecksFail(r, s, b);
    if BestTip(t) == Some(b.header.hash) {
      if !ExtendsTip(s.ledger, b) {
        SwitchKeepsTip(r, s.(tree := t), b.header.hash, now);
      } else {
        ExtendKeepsSound(r, s, b, t, staged.value);
        TipIsHeld(r, Extend(r, s.(tree := t), b, staged.value), b);
      }
    }
  }

  lemma TipIsHeld(r: Rules, s: Core, b: Block)
    requires Sound(r, s) && s.ledger.chain != [] && s.ledger.chain[|s.ledger.chain| - 1] == b
    ensures b.header.hash in s.tree
  {
    hide ChainTo, WellFormed, Faithful;
  }

  lemma SwitchKeepsTip(r: Rules, s: Core, best: Hash, now: nat)
    requires Sound(r, s) && s.ledger.chain != [] && BestTip(s.tree) == Some(best)
    ensures best in Reorg(r, s, now).0.tree
  {
    hide ChainTo, WellFormed, Faithful, Reorg, CommonAncestor, LedgerForTip, CrossesFinality, BestTip, SaveLedger;
    ReorgChain(r, s, best, now);
    ReorgStores(r, s, best, now);
    ReorgKeepsSound(r, s, now);
    ChainShape(s.tree, best);
    EachLinked(s.tree, best);
  }

  /** Reasons for refusal that only the checks give. */
  predicate Refusal(o: Outcome) {
    o.Failed? && (o.error.InvalidStateRoot? || o.error.ConsensusError? || o.error.ForkChoiceError?)
  }

  lemma PlacedOrElse(r: Rules, s: Core, b: Block, staged: Option<Ledger>, now: nat)
    ensures !Refusal(Place(r, s, b, staged, now).1)
  {
    hide ChainTo, Replay, CommonAncestor, BranchFrom, BestTip, RecoverBlocks, Extend, Headers, FromChain, Prune,
      BlockHashes, BlockWithHash;
    if s.ledger.chain != [] && BestTip(s.tree).Some? {
      var best := BestTip(s.tree).value;
      var found := CommonAncestor(s.tree, TipHash(s.ledger), best);
      if found.Some? {
        var noted := NoteContext(s, best, found.value);
        var l := LedgerForTip(r, noted, best);
        if l.Ok? {
          RecoverBlocksOutcome(r, l.value, Recovery(s.pool, s.disk.issues), s.ledger.chain, now);
        }
      }
    }
  }

  /** Why a step refuses a block: an unknown parent, a header the rules refuse, a root the parent's
      ledger does not lead to, or that fork choice holds it already, each exactly when. A genesis
      block that comes when there is a chain is refused too, for whichever reason comes first. */
  lemma RefusedIff(r: Rules, s: Core, b: Block, now: nat)
    requires Lawful(r) && Sound(r, s)
    ensures
      var outcome := KnownParent(r, s, b, now).1;
      && (outcome == Failed(ForkChoiceError(MissingParent)) <==> b.header.height > 0 && b.header.previous !in s.tree)
      && (outcome == Failed(ConsensusError) <==>
           !HeaderHolds(r, s, b) && (b.header.height > 0 ==> b.header.previous in s.tree))
      && (b.header.height > 0 || s.ledger.chain == [] ==>
           && (outcome == Failed(InvalidStateRoot) <==>
                && HeaderHolds(r, s, b) && ParentLedger(r, s, b).Ok?
                && WrongRoot(r, ParentLedger(r, s, b).value, b))
           && (outcome == Failed(ForkChoiceError(DuplicateBlock)) <==>
                Admissible(r, s, b) && b.header.hash in s.tree))
      && (b.header.height == 0 && s.ledger.chain != [] ==> outcome.Failed?)
  {
    hide Sound, ChainTo, Replay, CheckHeader, CheckState, Lawful, Place, WrongRoot, ParentLedger;
    HeaderChecked(r, s, b);
    SoundIsRooted(r, s);
    AcceptedIff(r, s, b, now);
    if CheckHeader(r, s, b).None? { ChecksRefuse(r, s, b); }
    if CheckHeader(r, s, b).None? && CheckState(r, s, b).Ok? && Insert(s.tree, b).Ok? {
      PlacedOrElse(r, s.(tree := Insert(s.tree, b).value), b, CheckState(r, s, b).value, now);
    }
  }

  lemma ChecksRefuse(r: Rules, s: Core, b: Block)
    requires Lawful(r) && Sound(r, s) && CheckHeader(r, s, b).None?
    ensures CheckState(r, s, b).Err? ==>
      !CheckState(r, s, b).error.ConsensusError? && !CheckState(r, s, b).error.ForkChoiceError?
    ensures b.header.height > 0 || s.ledger.chain == [] ==>
      && (CheckState(r, s, b) == Err(InvalidStateRoot) <==>
           ParentLedger(r, s, b).Ok? && WrongRoot(r, ParentLedger(r, s, b).value, b))
      && (CheckState(r, s, b).Ok? <==> Admissible(r, s, b))
  {
    hide Sound, ChainTo, Replay, CheckHeader, CheckState, Lawful;
    HeaderChecked(r, s, b);
    SoundIsRooted(r, s);
    StateErrors(r, s, b);
    if b.header.height == 0 {
      FirstChecked(r, s, b);
    } else {
      StateChecked(r, s, b);
    }
  }

  lemma StateErrors(r: Rules, s: Core, b: Block)
    ensures CheckState(r, s, b).Err? ==>
      !CheckState(r, s, b).error.ConsensusError? && !CheckState(r, s, b).error.ForkChoiceError?
  {
    hide ChainTo, Replay;
  }

  // ---- Refused for finality ----

  /** A step is refused for finality exactly when its block would become the best tip but moving to it
      would disconnect a finalized block of the active chain. */
  lemma FinalityRefusedIff(r: Rules, s: Core, b: Block, now: nat)
    requires Lawful(r) && Sound(r, s) && s.ledger.chain != []
    ensures KnownParent(r, s, b, now).1 == Failed(FinalityViolation) <==>
      && Acceptable(r, s, b) && TakesOver(s, b)
      && Shared(s.ledger.chain, ChainTo(Insert(s.tree, b).value, b.header.hash)) <= FinalHeight(r, s.ledger.chain)
  {
    hide Sound, ChainTo, Replay, CheckHeader, CheckState, Lawful, Reorg, Extend, Acceptable, Insert, BestTip, Shared,
      FinalHeight;
    ChecksAre(r, s, b);
    ChecksFail(r, s, b);
    if Acceptable(r, s, b) && TakesOver(s, b) {
      var t := Insert(s.tree, b).value;
      if ExtendsTip(s.ledger, b) {
        ExtensionKeepsAll(r, s, b, t);
      } else {
        GrownSound(r, s, b, t);
        FinalityCrossedIff(r, s.(tree := t), b.header.hash, now);
      }
    }
  }

  lemma GrownSound(r: Rules, s: Core, b: Block, t: Tree)
    requires Lawful(r) && Sound(r, s) && s.ledger.chain != [] && CheckHeader(r, s, b).None?
    requires Insert(s.tree, b) == Ok(t)
    ensures Sound(r, s.(tree := t))
  {
    hide Insert, CheckHeader, Rooted, Matches, Replay, Lawful;
    AcceptedGrows(r, s, b, t);
  }

  lemma ExtensionKeepsAll(r: Rules, s: Core, b: Block, t: Tree)
    requires Lawful(r) && Sound(r, s) && s.ledger.chain != [] && CheckHeader(r, s, b).None?
    requires Insert(s.tree, b) == Ok(t)
    requires ExtendsTip(s.ledger, b)
    ensures Shared(s.ledger.chain, ChainTo(t, b.header.hash)) > FinalHeight(r, s.ledger.chain)
  {
    hide ChainTo, Insert, CheckHeader, WellFormed, Matches, Replay, Lawful, Shared;
    AcceptedGrows(r, s, b, t);
    var chain := s.ledger.chain;
    assert chain + [b] == ChainTo(t, b.header.hash);
    assert (chain + [b])[..|chain|] == chain && chain[..|chain|] == chain;
    SharedAtLeast(chain, chain + [b], |chain|);
  }

  lemma FinalityCrossedIff(r: Rules, s: Core, best: Hash, now: nat)
    requires Sound(r, s) && s.ledger.chain != [] && BestTip(s.tree) == Some(best)
    ensures Reorg(r, s, now).1 == Failed(FinalityViolation) <==>
      Shared(s.ledger.chain, ChainTo(s.tree, best)) <= FinalHeight(r, s.ledger.chain)
  {
    hide Switch, ChainTo, CommonAncestor, BranchFrom, Shared, WellFormed, Faithful, Headers;
    ReorgSetting(r, s, best);
    var n := Shared(s.ledger.chain, ChainTo(s.tree, best));
    var ancestor := s.ledger.chain[n - 1].header.hash;
    if !CrossesFinality(r, s, ancestor) {
      var noted := NoteContext(s, best, ancestor);
      NotingKeepsSound(r, s, best, ancestor);
      SwitchKeepsSound(r, noted, best, now);
    }
  }

  // ---- Roots along a run ----

  /** Every block of the tree above genesis, other than those in `known`, carries the root its own
      branch leads to. */
  ghost predicate AllCommit(r: Rules, s: Core, known: set<Hash>) {
    forall h :: h in s.tree && h !in known && Height(s.tree, h) > 0 ==> CommitsIn(r, s.genesis, s.tree, h)
  }

  ghost predicate CommitsIn(r: Rules, genesis: State, t: Tree, h: Hash)
    requires h in t
  {
    Commits(r, genesis, ChainTo(t, t[h].block.header.previous), t[h].block)
  }

  lemma CommitsBelow(r: Rules, genesis: State, t: Tree, u: Tree, h: Hash)
    requires WellFormed(t) && WellFormed(u) && Within(t, u) && h in t && Height(t, h) > 0
    ensures CommitsIn(r, genesis, t, h) <==> CommitsIn(r, genesis, u, h)
  {
    hide ChainTo, Commits, WellFormed;
    EachLinked(t, h);
    ChainStable(t, u, t[h].block.header.previous);
  }

  /** What a step does to fork choice: nothing, or it adds the block and perhaps prunes. */
  lemma StepTree(r: Rules, s: Core, b: Block, now: nat)
    requires Lawful(r) && Sound(r, s)
    ensures
      var s' := KnownParent(r, s, b, now).0;
      if Acceptable(r, s, b) then
        && Insert(s.tree, b).Ok? && Within(s'.tree, Insert(s.tree, b).value)
        && (s.ledger.chain != [] ==> s'.genesis == s.genesis)
      else s' == s
  {
    hide Sound, ChainTo, Replay, CheckHeader, CheckState, Lawful, Place, Acceptable, Insert;
    AcceptedIff(r, s, b, now);
    ChecksAre(r, s, b);
    if Acceptable(r, s, b) {
      PlaceTree(r, s, b, now);
    }
  }

  lemma PlaceTree(r: Rules, s: Core, b: Block, now: nat)
    requires Lawful(r) && Sound(r, s)
    requires CheckHeader(r, s, b).None? && CheckState(r, s, b).Ok? && Insert(s.tree, b).Ok?
    ensures
      var s' := KnownParent(r, s, b, now).0;
      && Within(s'.tree, Insert(s.tree, b).value)
      && (s.ledger.chain != [] ==> s'.genesis == s.genesis)
  {
    hide ChainTo, Replay, CheckHeader, CheckState, Lawful, Insert, WellFormed, Matches, Reorg, BestTip, Prune,
      CommonAncestor, LedgerForTip, CrossesFinality, SaveLedger, MarkReconfirmed, InsertBlock, M.ConfirmAll;
    var t, staged := Insert(s.tree, b).value, CheckState(r, s, b).value;
    AcceptedGrows(r, s, b, t);
    ChecksFail(r, s, b);
    if BestTip(t) == Some(b.header.hash) {
      if !ExtendsTip(s.ledger, b) {
        ReorgStores(r, s.(tree := t), b.header.hash, now);
      } else {
        PruneWithin(r, Extended(r, s.(tree := t), b, staged.value));
      }
    }
  }

  lemma PruneWithin(r: Rules, s: Core)
    ensures Within(PruneFinalized(r, s).tree, s.tree) && PruneFinalized(r, s).genesis == s.genesis
  {
    hide ChainTo, OnChain;
  }

  lemma NewBlockCommits(r: Rules, s: Core, b: Block, t: Tree)
    requires Lawful(r) && Sound(r, s) && s.ledger.chain != [] && Acceptable(r, s, b) && Insert(s.tree, b) == Ok(t)
    ensures b.header.height > 0 && b.header.hash in t && CommitsIn(r, s.genesis, t, b.header.hash)
  {
    hide Sound, ChainTo, Replay, Lawful, WellFormed;
    SoundIsRooted(r, s);
    GrownFacts(r, s, b, t);
  }

  lemma GrownFacts(r: Rules, s: Core, b: Block, t: Tree)
    requires Lawful(r) && Sound(r, s) && s.ledger.chain != [] && HeaderHolds(r, s, b) && Insert(s.tree, b) == Ok(t)
    ensures WellFormed(t) && Within(s.tree, t) && t.Keys == s.tree.Keys + {b.header.hash}
    ensures b.header.height > 0 && t[b.header.hash].block == b
    ensures ChainTo(t, b.header.previous) == ChainTo(s.tree, b.header.previous)
  {
    hide ChainTo, Faithful, WellFormed, Insert, Lawful;
    HeaderChecked(r, s, b);
    AcceptedGrows(r, s, b, t);
    ChainStable(s.tree, t, b.header.previous);
  }

  lemma StepCommits(r: Rules, s: Core, b: Block, now: nat, known: set<Hash>)
    requires Lawful(r) && Sound(r, s) && s.ledger.chain != [] && AllCommit(r, s, known)
    ensures AllCommit(r, KnownParent(r, s, b, now).0, known)
  {
    hide Sound, ChainTo, Lawful, KnownParent, Acceptable, CommitsIn, WellFormed, Insert, ActiveMoves;
    var s' := KnownParent(r, s, b, now).0;
    StepTree(r, s, b, now);
    StepIsSound(r, s, b, now);
    if Acceptable(r, s, b) {
      var t := Insert(s.tree, b).value;
      AcceptableHolds(r, s, b);
      GrownFacts(r, s, b, t);
      NewBlockCommits(r, s, b, t);
      SoundIsWellFormed(r, s);
      SoundIsWellFormed(r, s');
      forall h | h in s'.tree && h !in known && Height(s'.tree, h) > 0
        ensures CommitsIn(r, s'.genesis, s'.tree, h)
      {
        CommitsBelow(r, s.genesis, s'.tree, t, h);
        if h != b.header.hash { CommitsBelow(r, s.genesis, s.tree, t, h); }
      }
    }
  }

  lemma AcceptableHolds(r: Rules, s: Core, b: Block)
    requires Acceptable(r, s, b)
    ensures HeaderHolds(r, s, b)
  {
  }

  lemma SoundIsWellFormed(r: Rules, s: Core)
    requires Sound(r, s)
    ensures WellFormed(s.tree)
  {
  }

  lemma ActiveCommits(r: Rules, s: Core, known: set<Hash>, k: nat)
    requires Sound(r, s) && AllCommit(r, s, known) && 0 < k < |s.ledger.chain|
    requires s.ledger.chain[k].header.hash !in known
    ensures Commits(r, s.genesis, s.ledger.chain[..k], s.ledger.chain[k])
  {
    hide ChainTo, WellFormed, Faithful, Commits;
    var b := s.ledger.chain[k];
    ChainShape(s.tree, TipHash(s.ledger));
    ChainLinks(s.tree, TipHash(s.ledger), k);
    assert ChainTo(s.tree, s.ledger.chain[k - 1].header.hash) == s.ledger.chain[..k];
    assert CommitsIn(r, s.genesis, s.tree, b.header.hash);
  }

  /** Along every run, each block of the active chain that was not there at the start carries the
      state root of the chain below it; so do all of them when the node started with genesis
      alone. */
  lemma {:induction false} RunCommits(r: Rules, s: Core, inputs: seq<(Block, nat)>, known: set<Hash>)
    requires Lawful(r) && Sound(r, s) && s.ledger.chain != [] && AllCommit(r, s, known)
    ensures
      var end := Feed(r, s, inputs);
      && AllCommit(r, end, known)
      && forall k :: 0 < k < |end.ledger.chain| && end.ledger.chain[k].header.hash !in known ==>
           Commits(r, end.genesis, end.ledger.chain[..k], end.ledger.chain[k])
    decreases |inputs|
  {
    hide KnownParent, Sound, AllCommit, Commits, ActiveMoves, Lawful;
    if inputs == [] {
      forall k | 0 < k < |s.ledger.chain| && s.ledger.chain[k].header.hash !in known
        ensures Commits(r, s.genesis, s.ledger.chain[..k], s.ledger.chain[k])
      {
        ActiveCommits(r, s, known, k);
      }
    } else {
      var (b, now) := inputs[0];
      StepIsSound(r, s, b, now);
      StepCommits(r, s, b, now, known);
      RunCommits(r, KnownParent(r, s, b, now).0, inputs[1..], known);
    }
  }
}

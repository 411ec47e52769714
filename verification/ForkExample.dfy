/** A node on a long branch that meets a shorter one with more work: the finality boundary drops,
    a block finalized before can be rewritten, and issues left over from an earlier fork lose their
    truth. And a node that declines such a branch, which a restart then forgets. */
module ForkExample {
  import opened Paqus
  import opened ForkTree
  import opened CoreCache
  import opened ChainEngine
  import opened ChainSafety
  import opened RollbackAccounting
  import opened OrderIndependence
  import opened Restart
  import opened Samples
  import M = Mempool
  import O = OrphanPool
  import Asking = ParentRequests
  import Books = OrphanBookkeeping
  import Reconnection
  import Roots = StateRoots
  import Startup

  const DEPTH: nat := 2

  function Root(): Block { Plain(1, 0, 0, 1, []) }

  function Base(): Block { Plain(2, 1, 1, 1, []) }

  function Middle(txs: seq<Tx>): Block { Plain(3, 2, 2, 1, txs) }

  function Tip(): Block { Plain(4, 3, 3, 1, []) }

  function Rival(txs: seq<Tx>): Block { Plain(5, 2, 2, 10, txs) }

  function Long(txs: seq<Tx>): seq<Block> { [Root(), Base(), Middle(txs), Tip()] }

  function Short(txs: seq<Tx>): seq<Block> { [Root(), Base(), Rival(txs)] }

  function Before(old': seq<Tx>): Tree {
    map[1 := Entry(Root(), 1), 2 := Entry(Base(), 2), 3 := Entry(Middle(old'), 3), 4 := Entry(Tip(), 4)]
  }

  function After(old': seq<Tx>, new': seq<Tx>): Tree {
    Before(old')[5 := Entry(Rival(new'), 12)]
  }

  lemma BeforeChains(old': seq<Tx>)
    ensures WellFormed(Before(old'))
    ensures ChainTo(Before(old'), 2) == [Root(), Base()] && ChainTo(Before(old'), 4) == Long(old')
  {
    var t := Before(old');
    assert ChainTo(t, 1) == [Root()];
    assert ChainTo(t, 2) == ChainTo(t, 1) + [Base()];
    assert ChainTo(t, 3) == ChainTo(t, 2) + [Middle(old')];
    assert ChainTo(t, 4) == ChainTo(t, 3) + [Tip()];
  }

  lemma AfterChains(old': seq<Tx>, new': seq<Tx>)
    ensures WellFormed(After(old', new')) && BestTip(After(old', new')) == Some(5)
    ensures ChainTo(After(old', new'), 4) == Long(old') && ChainTo(After(old', new'), 5) == Short(new')
  {
    var t := After(old', new');
    assert ChainTo(t, 1) == [Root()];
    assert ChainTo(t, 2) == ChainTo(t, 1) + [Base()];
    assert ChainTo(t, 3) == ChainTo(t, 2) + [Middle(old')];
    assert ChainTo(t, 4) == ChainTo(t, 3) + [Tip()];
    assert ChainTo(t, 5) == ChainTo(t, 2) + [Rival(new')];
    assert 5 in t;
    assert IsBest(t, BestTip(t).value);
  }

  lemma Fork(old': seq<Tx>, new': seq<Tx>)
    ensures Shared(Long(old'), Short(new')) == 2
  {
    SharedAtLeast(Long(old'), Short(new'), 2);
    assert Long(old')[2] != Short(new')[2];
    assert Long(old')[..3] != Short(new')[..3];
  }

  lemma AncestorIsBase(old': seq<Tx>, new': seq<Tx>)
    ensures CommonAncestor(After(old', new'), 4, 5) == Some(2)
  {
    hide ChainTo, Shared, CommonAncestor, BestTip, WellFormed;
    AfterChains(old', new');
    Fork(old', new');
    CommonAncestorIsHighest(After(old', new'), 4, 5);
  }

  function Node(genesis: State, old': seq<Tx>, issues: map<IssueKey, Issue>): Core {
    Standing(genesis, Long(old'), Before(old'), issues)
  }

  lemma NodeIsSound(genesis: State, old': seq<Tx>, issues: map<IssueKey, Issue>)
    ensures Sound(Simple(DEPTH), Node(genesis, old', issues))
  {
    hide Sound, ChainTo, WellFormed;
    BeforeChains(old');
    StandingIsSound(DEPTH, genesis, Long(old'), Before(old'), issues);
  }

  lemma RivalPasses(genesis: State, old': seq<Tx>, new': seq<Tx>, issues: map<IssueKey, Issue>)
    ensures
      var r, s := Simple(DEPTH), Node(genesis, old', issues);
      CheckHeader(r, s, Rival(new')).None? && CheckState(r, s, Rival(new')) == Ok(None)
  {
    hide ChainTo, Replay;
    BeforeChains(old');
    SimpleReplays(DEPTH, genesis, [Root(), Base()]);
  }

  lemma RivalSwitches(genesis: State, old': seq<Tx>, new': seq<Tx>, issues: map<IssueKey, Issue>)
    ensures
      var r, s := Simple(DEPTH), Node(genesis, old', issues);
      && Insert(s.tree, Rival(new')) == Ok(After(old', new'))
      && Switches(r, s, Rival(new'))
  {
    hide ChainTo, Replay, BestTip, CommonAncestor, CheckHeader, CheckState, WellFormed;
    RivalPasses(genesis, old', new', issues);
    AfterChains(old', new');
    AncestorIsBase(old', new');
    SimpleReplays(DEPTH, genesis, Short(new'));
  }

  /** Taking in the rival moves the node from height three to height two, and the finalized prefix
      shrinks from two blocks to one. */
  lemma ShorterBranchLowersBoundary(genesis: State, now: nat)
    ensures
      var r, s := Simple(DEPTH), Node(genesis, [], map[]);
      && Lawful(r) && Sound(r, s)
      && KnownParent(r, s, Rival([]), now).0.ledger.chain == Short([])
      && Finalized(r, s.ledger.chain) == [Root(), Base()]
      && Finalized(r, KnownParent(r, s, Rival([]), now).0.ledger.chain) == [Root()]
  {
    hide ChainTo, KnownParent, Sound, Lawful, Switches, Insert, WellFormed, BestTip, After;
    SimpleIsLawful(DEPTH);
    NodeIsSound(genesis, [], map[]);
    RivalSwitches(genesis, [], [], map[]);
    AfterChains([], []);
    StepChain(Simple(DEPTH), Node(genesis, [], map[]), Rival([]), now);
  }

  // ---- Issues left over from an earlier fork ----

  function Pay(): Tx { Tx(9, BatchTransfer, 1, 0, [], [], 0, 1, 1, 0) }

  /** The issue of transaction 9, once disconnected with block 77. */
  function Left(status: Status): map<IssueKey, Issue> {
    map[(77, 9) := Issue(Pay(), 2, 77, 0, 0, status, 1)]
  }

  /** The node once fork choice holds the rival. */
  function Grown(genesis: State, old': seq<Tx>, new': seq<Tx>, issues: map<IssueKey, Issue>): Core {
    Standing(genesis, Long(old'), After(old', new'), issues)
  }

  lemma GrownReorganizes(genesis: State, old': seq<Tx>, new': seq<Tx>, issues: map<IssueKey, Issue>, now: nat)
    requires |old'| <= 1
    ensures
      var r, s := Simple(DEPTH), Grown(genesis, old', new', issues);
      && Sound(r, s) && Reorg(r, s, now).1.Done?
      && var s' := Reorg(r, s, now).0;
      && s'.ledger == Ledger(genesis, Short(new')) && s'.genesis == genesis
      && s'.tree == Prune(After(old', new'), 1)
  {
    hide ChainTo, Replay, BestTip, CommonAncestor, WellFormed, RecoverBlocks, Sound, Prune, FromChain, Headers,
      BlockHashes;
    var r, s := Simple(DEPTH), Grown(genesis, old', new', issues);
    AfterChains(old', new');
    AncestorIsBase(old', new');
    StandingIsSound(DEPTH, genesis, Long(old'), After(old', new'), issues);
    SimpleReplays(DEPTH, genesis, Short(new'));
    var l := Ledger(genesis, Short(new'));
    ValidBlocksRecover(r, l, Recovery(s.pool, issues), Long(old'), now);
    BranchExists(old', new');
    var noted := NoteContext(s, 5, 2);
    assert SwitchTo(noted, l).ledger == l && SwitchTo(noted, l).disk.issues == issues;
  }

  lemma BranchExists(old': seq<Tx>, new': seq<Tx>)
    ensures BranchFrom(After(old', new'), 2, 5).Some?
  {
    hide ChainTo, BestTip, WellFormed;
    AfterChains(old', new');
  }

  lemma NotDropped(old': seq<Tx>)
    ensures 77 !in BlockHashes(Long(old')[2..])
  {
  }

  lemma ReconfirmedFacts()
    ensures Settled(Long([Pay()]), Reconfirmed(2, 3), 9) && !Lasts(Reconfirmed(2, 3), 9, Short([]), 2)
  {
    assert Middle([Pay()]).body.txs[0].hash == 9;
  }

  lemma RequeuedFacts()
    ensures Settled(Long([]), Requeued, 9) && !Lasts(Requeued, 9, Short([Pay()]), 2)
  {
    assert Short([Pay()])[2].body.txs[0].hash == 9;
    assert Carries(Short([Pay()])[2], 9);
  }

  /** An issue reconfirmed in a block that the reorganization disconnects keeps naming it. */
  lemma ReconfirmationGoesStale(genesis: State, now: nat)
    ensures
      var r, s := Simple(DEPTH), Grown(genesis, [Pay()], [], Left(Reconfirmed(2, 3)));
      && Sound(r, s) && Reorg(r, s, now).1.Done?
      && SettledAt(s.ledger.chain, s.disk.issues, (77, 9))
      && !SettledAt(Reorg(r, s, now).0.ledger.chain, Reorg(r, s, now).0.disk.issues, (77, 9))
  {
    hide Reorg, Sound, ChainTo, BestTip, Shared, BlockHashes, WellFormed, After, Lasts, Settled;
    var r, s := Simple(DEPTH), Grown(genesis, [Pay()], [], Left(Reconfirmed(2, 3)));
    GrownReorganizes(genesis, [Pay()], [], Left(Reconfirmed(2, 3)), now);
    AfterChains([Pay()], []);
    Fork([Pay()], []);
    NotDropped([Pay()]);
    ReconfirmedFacts();
    OtherIssueLastsIff(r, s, now, (77, 9));
  }

  /** An issue requeued earlier stays requeued although the new branch confirms its transaction. */
  lemma RequeuedGoesStale(genesis: State, now: nat)
    ensures
      var r, s := Simple(DEPTH), Grown(genesis, [], [Pay()], Left(Requeued));
      && Sound(r, s) && Reorg(r, s, now).1.Done?
      && SettledAt(s.ledger.chain, s.disk.issues, (77, 9))
      && !SettledAt(Reorg(r, s, now).0.ledger.chain, Reorg(r, s, now).0.disk.issues, (77, 9))
  {
    hide Reorg, Sound, ChainTo, BestTip, Shared, BlockHashes, WellFormed, After, Lasts, Settled;
    var r, s := Simple(DEPTH), Grown(genesis, [], [Pay()], Left(Requeued));
    GrownReorganizes(genesis, [], [Pay()], Left(Requeued), now);
    AfterChains([], [Pay()]);
    Fork([], [Pay()]);
    NotDropped([]);
    RequeuedFacts();
    OtherIssueLastsIff(r, s, now, (77, 9));
  }

  // ---- Rewriting a block that was finalized ----

  function Usurper(): Block { Plain(6, 1, 1, 100, []) }

  function Usurped(): Tree { After([], [])[6 := Entry(Usurper(), 101)] }

  lemma NothingPruned()
    ensures Prune(After([], []), 1) == After([], [])
  {
    var t := After([], []);
    hide WellFormed, BestTip;
    forall h | h in t ensures OnChain(ChainTo(t, h), 1) {
      AllChains(h);
      assert ChainTo(t, h)[0].header.hash == 1;
    }
  }

  lemma AllChains(h: Hash)
    requires h in After([], [])
    ensures ChainTo(After([], []), h) != [] && ChainTo(After([], []), h)[0] == Root()
  {
    hide ChainTo, BestTip;
    var t := After([], []);
    AfterChains([], []);
    ChainShape(t, h);
    assert ChainTo(t, h)[0].header.hash in t;
    assert Height(t, 1) == 0;
  }

  lemma UsurpedChains()
    ensures WellFormed(Usurped()) && BestTip(Usurped()) == Some(6)
    ensures ChainTo(Usurped(), 5) == Short([]) && ChainTo(Usurped(), 6) == [Root(), Usurper()]
    ensures ChainTo(After([], []), 1) == [Root()]
  {
    hide ChainTo, WellFormed;
    var before, t := After([], []), Usurped();
    AfterChains([], []);
    RootChain();
    InsertGrows(before, Usurper(), t);
    ChainStable(before, t, 5);
    assert 6 in t;
    assert forall h :: h in before ==> before[h].work <= 12;
    assert IsBest(t, BestTip(t).value);
  }

  lemma RootChain()
    ensures ChainTo(After([], []), 1) == [Root()]
  {
  }

  lemma AncestorIsRoot()
    ensures CommonAncestor(Usurped(), 5, 6) == Some(1)
  {
    hide ChainTo, Shared, CommonAncestor, BestTip, WellFormed;
    UsurpedChains();
    SharedAtLeast(Short([]), [Root(), Usurper()], 1);
    assert Short([])[1] != [Root(), Usurper()][1];
    assert Short([])[..2] != [Root(), Usurper()][..2];
    CommonAncestorIsHighest(Usurped(), 5, 6);
  }

  lemma UsurperSwitches(genesis: State, s: Core)
    requires s.ledger == Ledger(genesis, Short([])) && s.genesis == genesis && s.tree == After([], [])
    ensures Insert(s.tree, Usurper()) == Ok(Usurped()) && Switches(Simple(DEPTH), s, Usurper())
  {
    hide ChainTo, Replay, BestTip, CommonAncestor, WellFormed;
    UsurpedChains();
    AncestorIsRoot();
    SimpleReplays(DEPTH, genesis, [Root()]);
    SimpleReplays(DEPTH, genesis, [Root(), Usurper()]);
  }

  /** The step that takes in the rival is the reorganization of the grown node. */
  lemma RivalTakenIn(genesis: State, now: nat)
    ensures KnownParent(Simple(DEPTH), Node(genesis, [], map[]), Rival([]), now)
      == Reorg(Simple(DEPTH), Grown(genesis, [], [], map[]), now)
  {
    hide ChainTo, Replay, BestTip, CommonAncestor, CheckHeader, CheckState, WellFormed, Reorg;
    RivalPasses(genesis, [], [], map[]);
    RivalSwitches(genesis, [], [], map[]);
    AfterChains([], []);
  }

  /** Two blocks later a block that was finalized at the start is off the active chain: each step
      respects the boundary it starts from, but the first one lowers it. */
  lemma FinalizedBlockRewritten(genesis: State, now: nat)
    ensures
      var r, s := Simple(DEPTH), Node(genesis, [], map[]);
      var end := Feed(r, s, [(Rival([]), now), (Usurper(), now)]);
      && Lawful(r) && Sound(r, s) && Sound(r, end)
      && Base() in Finalized(r, s.ledger.chain)
      && end.ledger.chain == [Root(), Usurper()]
  {
    hide ChainTo, KnownParent, Sound, Lawful, Switches, Insert, Reorg, Prune;
    var r, s := Simple(DEPTH), Node(genesis, [], map[]);
    var s1 := KnownParent(r, s, Rival([]), now).0;
    SimpleIsLawful(DEPTH);
    NodeIsSound(genesis, [], map[]);
    StepIsSound(r, s, Rival([]), now);
    RivalTakenIn(genesis, now);
    GrownReorganizes(genesis, [], [], map[], now);
    NothingPruned();
    UsurperSwitches(genesis, s1);
    UsurpedChains();
    StepIsSound(r, s1, Usurper(), now);
    StepChain(r, s1, Usurper(), now);
    TwoSteps(r, s, (Rival([]), now), (Usurper(), now));
    assert Finalized(r, s.ledger.chain)[1] == Base();
  }

  lemma TwoSteps(r: Rules, s: Core, a: (Block, nat), b: (Block, nat))
    ensures Feed(r, s, [a, b]) == KnownParent(r, KnownParent(r, s, a.0, a.1).0, b.0, b.1).0
  {
    hide KnownParent;
    var s1 := KnownParent(r, s, a.0, a.1).0;
    assert [a, b][1..] == [b] && [b][1..] == [];
    assert Feed(r, s1, [b]) == KnownParent(r, s1, b.0, b.1).0;
  }

  // ---- Declining a branch ----

  function Shelf(): map<Hash, Block> {
    map[1 := Root(), 2 := Base(), 3 := Middle([]), 4 := Tip()]
  }

  /** The node with all its blocks on disk. */
  function Kept(genesis: State): Core {
    var s := Node(genesis, [], map[]);
    s.(disk := s.disk.(blocks := Shelf()))
  }

  function Overgrown(): Tree { Before([])[6 := Entry(Usurper(), 101)] }

  lemma OvergrownChains()
    ensures WellFormed(Overgrown()) && BestTip(Overgrown()) == Some(6)
    ensures ChainTo(Overgrown(), 4) == Long([]) && ChainTo(Overgrown(), 6) == [Root(), Usurper()]
    ensures ChainTo(Before([]), 1) == [Root()]
  {
    hide WellFormed, ChainTo;
    var before, t := Before([]), Overgrown();
    BeforeChains([]);
    FirstChain();
    InsertGrows(before, Usurper(), t);
    ChainStable(before, t, 4);
    assert 6 in t;
    assert forall h :: h in before ==> before[h].work <= 4;
    assert IsBest(t, BestTip(t).value);
  }

  lemma FirstChain()
    ensures ChainTo(Before([]), 1) == [Root()]
  {
  }

  lemma OvergrownAncestor()
    ensures CommonAncestor(Overgrown(), 4, 6) == Some(1)
  {
    hide ChainTo, Shared, CommonAncestor, BestTip, WellFormed;
    OvergrownChains();
    SharedAtLeast(Long([]), [Root(), Usurper()], 1);
    assert Long([])[1] != [Root(), Usurper()][1];
    assert Long([])[..2] != [Root(), Usurper()][..2];
    CommonAncestorIsHighest(Overgrown(), 4, 6);
  }

  lemma KeptDeclines(genesis: State)
    ensures Declines(Simple(DEPTH), Kept(genesis), Usurper())
  {
    hide ChainTo, Replay, BestTip, CommonAncestor, WellFormed;
    OvergrownChains();
    OvergrownAncestor();
    SimpleReplays(DEPTH, genesis, [Root()]);
  }

  lemma KeptIsShelved(genesis: State)
    ensures Sound(Simple(DEPTH), Kept(genesis)) && Shelved(Simple(DEPTH), Kept(genesis))
  {
    hide ChainTo, Replay, WellFormed, FromChain, Matches;
    NodeIsSound(genesis, [], map[]);
  }

  /** The premises of forgetting can be met: a branch of far more work that forks off below the
      boundary becomes the best tip, the node stays where it is, and after a restart the block is
      gone from fork choice. */
  lemma DeclinedTipForgotten(genesis: State, now: nat, config: M.Config)
    ensures
      var r, s := Simple(DEPTH), Kept(genesis);
      var s' := KnownParent(r, s, Usurper(), now).0;
      && Lawful(r) && Sound(r, s) && Shelved(r, s)
      && BestTip(s'.tree) == Some(6) && Startup.Grow(s'.ledger.chain).Ok?
      && 6 !in Restarted(r, s'.ledger, s'.genesis, s'.disk, config).tree
  {
    hide KnownParent, Sound, Shelved, Lawful, Declines, Startup.Grow, BestTip, Restarted;
    SimpleIsLawful(DEPTH);
    KeptIsShelved(genesis);
    KeptDeclines(genesis);
    RestartForgetsDeclined(Simple(DEPTH), Kept(genesis), Usurper(), now, config);
  }

  // ---- A block left waiting ----

  function Heir(): Block { Plain(7, 2, 6, 1, []) }

  /** The node while the heir waits for the block to be declined. */
  function Expecting(genesis: State): O.NodeState {
    O.NodeState(
      Kept(genesis), O.Orphans(map[7 := O.Orphan(Heir(), 0)], map[6 := [7]]), O.Requests([6], {6}, map[6 := 0]), 0)
  }

  lemma ExpectingIsKept(genesis: State)
    ensures Books.Kept(Expecting(genesis)) && Reconnection.Unconnected(Expecting(genesis))
  {
    var n := Expecting(genesis);
    assert n.orphans.blocks.Keys == {7};
    assert n.requests.queued == (set h | h in n.requests.queue);
  }

  lemma UsurperStalls(genesis: State, now: nat)
    ensures Reconnection.Stalls(Simple(DEPTH), Kept(genesis), Usurper(), now)
  {
    hide Sound, ChainTo, Shared, BestTip, CheckHeader, CheckState, KnownParent, Roots.Acceptable, CommonAncestor,
      Lawful,
      Switches;
    var r, s := Simple(DEPTH), Kept(genesis);
    SimpleIsLawful(DEPTH);
    KeptIsShelved(genesis);
    KeptDeclines(genesis);
    Roots.ChecksAre(r, s, Usurper());
    OvergrownChains();
    OvergrownShares();
    assert Insert(s.tree, Usurper()) == Ok(Overgrown());
    hide Insert, WellFormed;
    Roots.FinalityRefusedIff(r, s, Usurper(), now);
  }

  lemma OvergrownShares()
    ensures Shared(Long([]), [Root(), Usurper()]) == 1
  {
    hide Shared;
    SharedAtLeast(Long([]), [Root(), Usurper()], 1);
    assert Long([])[1] != [Root(), Usurper()][1];
    assert Long([])[..2] != [Root(), Usurper()][..2];
  }

  /** A block that waits for a parent is left waiting although the parent arrives and enters fork choice,
      because the node declines to move to it. */
  lemma HeirLeftWaiting(genesis: State)
    ensures
      var r, n := Simple(DEPTH), Expecting(genesis);
      var n' := O.ApplyBlock(r, n, Usurper(), 0).0;
      && Lawful(r) && Sound(r, n.core) && Books.Kept(n) && Reconnection.Unconnected(n)
      && !Reconnection.Unconnected(n')
  {
    hide Sound, Lawful, Books.Kept, Reconnection.Unconnected, Reconnection.Stalls, O.ApplyBlock;
    var r, n := Simple(DEPTH), Expecting(genesis);
    SimpleIsLawful(DEPTH);
    KeptIsShelved(genesis);
    ExpectingIsKept(genesis);
    UsurperStalls(genesis, 0);
    Reconnection.StalledLeavesWaiting(r, n, Usurper(), 0);
    assert 7 in Asking.Lasting(n, 0);
  }
}

/** Whole runs of a node: blocks arriving, waiting and reconnecting, with the pool and the storage
    tables that go along. */
module NodeRuns {
  import opened Paqus
  import opened ForkTree
  import opened CoreCache
  import opened ChainEngine
  import opened ChainSafety
  import opened StateRoots
  import opened OrphanPool
  import opened OrphanBookkeeping
  import M = Mempool
  import B = ByteTable
  import I = StorageIndex
  import H = StorageHistory
  import E = StorageEvents
  import S = StorageObject

  // ---- The block steps of a run ----

  /** The blocks `Reconnect` applies, with their times. */
  function ReconnectSteps(r: Rules, n: NodeState, kids: seq<Hash>, now: nat): seq<(Block, nat)>
    decreases |kids|
  {
    if kids == [] then []
    else if kids[0] !in n.orphans.blocks then ReconnectSteps(r, n, kids[1..], now)
    else
      var child := n.orphans.blocks[kids[0]].block;
      var taken := TakeOrphan(n, kids[0]);
      var (core, outcome) := KnownParent(r, taken.core, child, now);
      var next := taken.(core := core);
      var again := outcome == Failed(ForkChoiceError(MissingParent));
      [(child, now)] + ReconnectSteps(r, if again then CacheOrphan(next, child, now) else next, kids[1..], now)
  }

  function ReconnectAllSteps(r: Rules, n: NodeState, parents: seq<Hash>, now: nat): seq<(Block, nat)>
    decreases 2 * |n.orphans.blocks| + |parents|
  {
    if parents == [] then [] else
    var p, rest := parents[|parents| - 1], parents[..|parents| - 1];
    if p !in n.orphans.children then ReconnectAllSteps(r, n, rest, now) else
    var (next, more) := Reconnect(r, DropList(n, p), n.orphans.children[p], rest, now);
    ReconnectSteps(r, DropList(n, p), n.orphans.children[p], now) + ReconnectAllSteps(r, next, more, now)
  }

  function ApplySteps(r: Rules, n: NodeState, b: Block, now: nat): seq<(Block, nat)> {
    var p := PruneOrphans(n, now);
    var (core, outcome) := KnownParent(r, p.core, b, now);
    [(b, now)] +
      if outcome.Done? then ReconnectAllSteps(r, PruneOrphans(p.(core := core), now), [b.header.hash], now) else []
  }

  /** The blocks an event makes the chain engine apply: the delivered one and any waiting ones that
      reconnect. */
  function HandleSteps(r: Rules, n: NodeState, e: Event): seq<(Block, nat)> {
    if e.Deliver? then ApplySteps(r, n, e.block, e.at) else []
  }

  lemma {:induction false} FeedJoins(r: Rules, s: Core, first: seq<(Block, nat)>, second: seq<(Block, nat)>)
    ensures Feed(r, s, first + second) == Feed(r, Feed(r, s, first), second)
    decreases |first|
  {
    hide KnownParent;
    if first == [] {
      assert first + second == second;
    } else {
      assert (first + second)[1..] == first[1..] + second;
      FeedJoins(r, KnownParent(r, s, first[0].0, first[0].1).0, first[1..], second);
    }
  }

  lemma FeedStarts(r: Rules, s: Core, input: (Block, nat), rest: seq<(Block, nat)>)
    ensures Feed(r, s, [input] + rest) == Feed(r, KnownParent(r, s, input.0, input.1).0, rest)
  {
    hide KnownParent;
    assert ([input] + rest)[1..] == rest;
  }

  lemma CachingKeepsCore(n: NodeState, b: Block, now: nat)
    ensures CacheOrphan(n, b, now).core == n.core
  {
    hide RemoveOrphans, StaleHashes, QueueAt, AddOrphan, MakeRoom;
  }

  lemma {:induction false} ReconnectIsFeed(r: Rules, n: NodeState, kids: seq<Hash>, parents: seq<Hash>, now: nat)
    ensures Reconnect(r, n, kids, parents, now).0.core == Feed(r, n.core, ReconnectSteps(r, n, kids, now))
    decreases |kids|
  {
    hide KnownParent, CacheOrphan, Feed;
    if kids == [] {
      FeedNothing(r, n.core);
    } else if kids[0] !in n.orphans.blocks {
      ReconnectIsFeed(r, n, kids[1..], parents, now);
    } else {
      var child := n.orphans.blocks[kids[0]].block;
      var taken := TakeOrphan(n, kids[0]);
      var (core, outcome) := KnownParent(r, taken.core, child, now);
      var next := taken.(core := core);
      var again := outcome == Failed(ForkChoiceError(MissingParent));
      var then' := if again then CacheOrphan(next, child, now) else next;
      CachingKeepsCore(next, child, now);
      ReconnectIsFeed(r, then', kids[1..], if outcome.Done? then parents + [kids[0]] else parents, now);
      FeedStarts(r, n.core, (child, now), ReconnectSteps(r, then', kids[1..], now));
    }
  }

  lemma FeedNothing(r: Rules, s: Core)
    ensures Feed(r, s, []) == s
  {
  }

  lemma {:induction false} ReconnectAllIsFeed(r: Rules, n: NodeState, parents: seq<Hash>, now: nat)
    ensures ReconnectAll(r, n, parents, now).core == Feed(r, n.core, ReconnectAllSteps(r, n, parents, now))
    decreases 2 * |n.orphans.blocks| + |parents|
  {
    hide Reconnect, ReconnectSteps, Feed;
    if parents == [] {
      FeedNothing(r, n.core);
    } else {
      var p, rest := parents[|parents| - 1], parents[..|parents| - 1];
      if p !in n.orphans.children {
        ReconnectAllIsFeed(r, n, rest, now);
      } else {
        var kids := n.orphans.children[p];
        var (next, more) := Reconnect(r, DropList(n, p), kids, rest, now);
        ReconnectIsFeed(r, DropList(n, p), kids, rest, now);
        ReconnectAllIsFeed(r, next, more, now);
        FeedJoins(r, n.core, ReconnectSteps(r, DropList(n, p), kids, now), ReconnectAllSteps(r, next, more, now));
      }
    }
  }

  lemma ApplyIsFeed(r: Rules, n: NodeState, b: Block, now: nat)
    ensures ApplyBlock(r, n, b, now).0.core == Feed(r, n.core, ApplySteps(r, n, b, now))
  {
    hide KnownParent, CacheOrphan, ReconnectAll, ReconnectAllSteps, Feed, PruneOrphans;
    PruneTouchesOrphans(n, now);
    var p := PruneOrphans(n, now);
    var (core, outcome) := KnownParent(r, p.core, b, now);
    var next := p.(core := core);
    CachingKeepsCore(next, b, now);
    PruneTouchesOrphans(next, now);
    var connected := PruneOrphans(next, now);
    ReconnectAllIsFeed(r, connected, [b.header.hash], now);
    var later := if outcome.Done? then ReconnectAllSteps(r, connected, [b.header.hash], now) else [];
    FeedStarts(r, n.core, (b, now), later);
    FeedNothing(r, core);
  }

  /** An event moves the chain engine as feeding it the event's block steps does, up to the pool,
      which submissions and expiry change as well. */
  lemma HandleIsFeed(r: Rules, n: NodeState, e: Event)
    ensures
      var s' := Handle(r, n, e).core;
      && s' == Feed(r, n.core, HandleSteps(r, n, e)).(pool := s'.pool)
      && (e.Deliver? ==> s' == Feed(r, n.core, HandleSteps(r, n, e)))
  {
    hide ApplyBlock, ApplySteps, Feed, Drain, QueueAt;
    if e.Deliver? {
      ApplyIsFeed(r, n, e.block, e.at);
    } else {
      FeedNothing(r, n.core);
    }
  }

  // ---- What block intake answers ----

  lemma {:induction false} ReconnectKeepsCount(r: Rules, n: NodeState, kids: seq<Hash>, parents: seq<Hash>, now: nat)
    ensures Reconnect(r, n, kids, parents, now).0.failures == n.failures
    decreases |kids|
  {
    hide KnownParent, RemoveOrphans, StaleHashes, QueueAt, AddOrphan, MakeRoom;
    if kids != [] {
      if kids[0] !in n.orphans.blocks {
        ReconnectKeepsCount(r, n, kids[1..], parents, now);
      } else {
        var child := n.orphans.blocks[kids[0]].block;
        var taken := TakeOrphan(n, kids[0]);
        var next := taken.(core := KnownParent(r, taken.core, child, now).0);
        ReconnectKeepsCount(r, next, kids[1..], parents + [kids[0]], now);
        ReconnectKeepsCount(r, next, kids[1..], parents, now);
        ReconnectKeepsCount(r, CacheOrphan(next, child, now), kids[1..], parents, now);
      }
    }
  }

  lemma {:induction false} ReconnectAllKeepsCount(r: Rules, n: NodeState, parents: seq<Hash>, now: nat)
    ensures ReconnectAll(r, n, parents, now).failures == n.failures
    decreases 2 * |n.orphans.blocks| + |parents|
  {
    hide Reconnect;
    if parents != [] {
      var p, rest := parents[|parents| - 1], parents[..|parents| - 1];
      if p !in n.orphans.children {
        ReconnectAllKeepsCount(r, n, rest, now);
      } else {
        var kids := n.orphans.children[p];
        ReconnectKeepsCount(r, DropList(n, p), kids, rest, now);
        var (next, more) := Reconnect(r, DropList(n, p), kids, rest, now);
        ReconnectAllKeepsCount(r, next, more, now);
      }
    }
  }

  /** Block intake reports success for a block it applied, has to keep waiting, or knows already, and
      otherwise the reason the step gave; exactly the reported failures are counted. */
  lemma IntakeAnswers(r: Rules, n: NodeState, b: Block, now: nat)
    requires Lawful(r) && Sound(r, n.core) && n.core.ledger.chain != []
    ensures
      var (n', outcome) := ApplyBlock(r, n, b, now);
      var step := KnownParent(r, n.core, b, now);
      && n'.failures == (if outcome.Failed? then Min(n.failures + 1, U64_MAX) else n.failures)
      && (outcome.Failed? ==> outcome == step.1)
      && (outcome.Done? <==>
           || step.1.Done?
           || (b.header.height > 0 && b.header.previous !in n.core.tree)
           || step.1 == Failed(ForkChoiceError(DuplicateBlock)) || step.1 == Failed(LedgerFailure(AlreadyApplied)))
      && (step.1.Failed? ==> n'.core == step.0)
      && (step.1.Failed? && step.1.error.ForkChoiceError? ==> n'.core == n.core)
  {
    hide KnownParent, CacheOrphan, ReconnectAll, PruneOrphans, Lawful, Sound, HeaderHolds, ParentLedger, WrongRoot,
      Admissible, Acceptable, Answers;
    PruneTouchesOrphans(n, now);
    RefusedIff(r, n.core, b, now);
    AcceptedIff(r, n.core, b, now);
    var p := PruneOrphans(n, now);
    var (core, outcome) := KnownParent(r, p.core, b, now);
    var next := p.(core := core);
    PruneTouchesOrphans(next, now);
    ReconnectAllKeepsCount(r, PruneOrphans(next, now), [b.header.hash], now);
    CachingKeepsCount(next, b, now);
    if outcome.Failed? && outcome.error.ForkChoiceError? { KnownUnchanged(r, n.core, b, now); }
  }

  lemma CachingKeepsCount(n: NodeState, b: Block, now: nat)
    ensures CacheOrphan(n, b, now).failures == n.failures && CacheOrphan(n, b, now).core == n.core
  {
    hide RemoveOrphans, StaleHashes, QueueAt, AddOrphan, MakeRoom;
  }

  /** A block that fork choice refuses changes nothing. */
  lemma KnownUnchanged(r: Rules, s: Core, b: Block, now: nat)
    requires Lawful(r) && Sound(r, s) && s.ledger.chain != []
    requires KnownParent(r, s, b, now).1.Failed? && KnownParent(r, s, b, now).1.error.ForkChoiceError?
    ensures KnownParent(r, s, b, now).0 == s
  {
    hide KnownParent, Sound, Lawful;
    AcceptedIff(r, s, b, now);
    RefusedIff(r, s, b, now);
    SoundIsRooted(r, s);
    match KnownParent(r, s, b, now).1.error.kind {
      case MissingParent => assert !HeaderHolds(r, s, b);
      case DuplicateBlock => assert b.header.hash in s.tree;
    }
  }

  // ---- The pool along a run ----

  lemma {:induction false} RecoverTxsKeepPool(r: Rules, l: Ledger, rec: Recovery, b: Block, i: nat, now: nat)
    requires i <= |b.body.txs| && M.Consistent(rec.pool)
    ensures M.Consistent(RecoverTxs(r, l, rec, b, i, now).0.pool)
    decreases |b.body.txs| - i
  {
    hide M.Consistent, M.Insert;
    if i < |b.body.txs| && i <= U32_MAX && r.proofOk(b, i) {
      var key := (b.header.hash, b.body.txs[i].hash);
      var issue := Opened(rec, b, i, now);
      M.InsertKeepsConsistent(r, rec.pool, l, issue.tx, now);
      RecoverTxsKeepPool(r, l, Retry(r, l, rec, key, issue, now), b, i + 1, now);
    }
  }

  lemma {:induction false} RecoverBlocksKeepPool(r: Rules, l: Ledger, rec: Recovery, blocks: seq<Block>, now: nat)
    requires M.Consistent(rec.pool)
    ensures M.Consistent(RecoverBlocks(r, l, rec, blocks, now).0.pool)
    decreases |blocks|
  {
    hide M.Consistent, RecoverTxs;
    if blocks != [] {
      RecoverTxsKeepPool(r, l, rec, blocks[0], 0, now);
      RecoverBlocksKeepPool(r, l, rec, blocks[1..], now);
      RecoverBlocksKeepPool(r, l, RecoverTxs(r, l, rec, blocks[0], 0, now).0, blocks[1..], now);
    }
  }

  lemma ReorgKeepsPool(r: Rules, s: Core, now: nat)
    requires M.Consistent(s.pool)
    ensures M.Consistent(Reorg(r, s, now).0.pool)
  {
    hide M.Consistent, RecoverBlocks, ChainTo, CommonAncestor, BranchFrom, Prune, Replay, BlockHashes, BlockWithHash,
      Headers;
    if s.ledger.chain != [] && BestTip(s.tree).Some? {
      var best := BestTip(s.tree).value;
      var found := CommonAncestor(s.tree, TipHash(s.ledger), best);
      if found.Some? {
        var noted := NoteContext(s, best, found.value);
        var l := LedgerForTip(r, noted, best);
        if l.Ok? {
          RecoverBlocksKeepPool(r, l.value, Recovery(s.pool, s.disk.issues), s.ledger.chain, now);
        }
      }
    }
  }

  lemma StepKeepsPool(r: Rules, s: Core, b: Block, now: nat)
    requires M.Consistent(s.pool)
    ensures M.Consistent(KnownParent(r, s, b, now).0.pool)
  {
    hide M.Consistent, Reorg, CheckHeader, CheckState, Insert, Prune, BestTip, M.RemoveAll, SaveLedger, MarkReconfirmed;
    M.RemoveAllKeepsConsistent(s.pool, M.ConfirmedHashes(b));
    if Insert(s.tree, b).Ok? {
      ReorgKeepsPool(r, s.(tree := Insert(s.tree, b).value), now);
    }
  }

  lemma {:induction false} FeedKeepsPool(r: Rules, s: Core, inputs: seq<(Block, nat)>)
    requires M.Consistent(s.pool)
    ensures M.Consistent(Feed(r, s, inputs).pool)
    decreases |inputs|
  {
    hide M.Consistent, KnownParent;
    if inputs != [] {
      StepKeepsPool(r, s, inputs[0].0, inputs[0].1);
      FeedKeepsPool(r, KnownParent(r, s, inputs[0].0, inputs[0].1).0, inputs[1..]);
    }
  }

  lemma HandleKeepsPool(r: Rules, n: NodeState, e: Event)
    requires M.Consistent(n.core.pool)
    ensures M.Consistent(Handle(r, n, e).core.pool)
  {
    hide M.Consistent, ApplyBlock, HandleSteps, M.Insert, M.RemoveAll;
    HandleIsFeed(r, n, e);
    match e {
      case Deliver(_, _) => FeedKeepsPool(r, n.core, HandleSteps(r, n, e));
      case Submit(tx, at) => M.InsertKeepsConsistent(r, n.core.pool, n.core.ledger, tx, at);
      case ExpirePool(at) => M.RemoveAllKeepsConsistent(n.core.pool, M.ExpiredHashes(n.core.pool, at));
      case DrainRequests(_) =>
      case RetryParent(_, _) =>
    }
  }

  // ---- Safety of whole runs ----

  lemma SoundIgnoresPool(r: Rules, s: Core, pool: M.Pool)
    ensures Sound(r, s.(pool := pool)) <==> Sound(r, s)
  {
  }

  lemma HandleKeepsSound(r: Rules, n: NodeState, e: Event)
    requires Lawful(r) && Sound(r, n.core) && n.core.ledger.chain != []
    ensures Sound(r, Handle(r, n, e).core) && Handle(r, n, e).core.ledger.chain != []
  {
    hide Sound, Handle, HandleSteps, Feed, BoundaryHolds, TipNeverDrops, Lawful;
    HandleIsFeed(r, n, e);
    RunKeepsFinalized(r, n.core, HandleSteps(r, n, e));
    SoundIgnoresPool(r, Feed(r, n.core, HandleSteps(r, n, e)), Handle(r, n, e).core.pool);
  }

  /** No block step of the run starts from a finality boundary below `height`. */
  ghost predicate BoundaryKept(r: Rules, n: NodeState, events: seq<Event>, height: nat)
    decreases |events|
  {
    events != [] ==>
      && BoundaryHolds(r, n.core, HandleSteps(r, n, events[0]), height)
      && BoundaryKept(r, Handle(r, n, events[0]), events[1..], height)
  }

  lemma {:induction false} PrefixSurvivesRun(r: Rules, n: NodeState, events: seq<Event>, prefix: seq<Block>)
    requires Lawful(r) && Sound(r, n.core) && n.core.ledger.chain != []
    requires prefix != [] && prefix <= n.core.ledger.chain && BoundaryKept(r, n, events, |prefix| - 1)
    ensures prefix <= HandleAll(r, n, events).core.ledger.chain
    decreases |events|
  {
    hide Sound, Handle, HandleSteps, Feed, BoundaryHolds, Lawful;
    if events != [] {
      HandleIsFeed(r, n, events[0]);
      HandleKeepsSound(r, n, events[0]);
      PrefixSurvives(r, n.core, HandleSteps(r, n, events[0]), prefix);
      PrefixSurvivesRun(r, Handle(r, n, events[0]), events[1..], prefix);
    }
  }

  lemma {:induction false} RunKeepsInvariants(r: Rules, n: NodeState, events: seq<Event>)
    requires Lawful(r) && Sound(r, n.core) && n.core.ledger.chain != [] && M.Consistent(n.core.pool)
    ensures
      var end := HandleAll(r, n, events).core;
      Sound(r, end) && end.ledger.chain != [] && M.Consistent(end.pool)
    decreases |events|
  {
    hide Sound, M.Consistent, Handle, Lawful;
    if events != [] {
      HandleKeepsSound(r, n, events[0]);
      HandleKeepsPool(r, n, events[0]);
      RunKeepsInvariants(r, Handle(r, n, events[0]), events[1..]);
    }
  }

  /** After every run of events, with whatever blocks arrive and reconnect, transactions are
      submitted and expire: the chain is the replay it claims to be, every pool index agrees, all
      orphan bookkeeping holds, and while the finality boundary does not fall below where it was at
      the start no block finalized then is rewritten. */
  lemma NodeRunIsSafe(r: Rules, n: NodeState, events: seq<Event>)
    requires Lawful(r) && Sound(r, n.core) && n.core.ledger.chain != []
    requires M.Consistent(n.core.pool) && Kept(n)
    ensures
      var end := HandleAll(r, n, events);
      && Sound(r, end.core) && end.core.ledger.chain != [] && M.Consistent(end.core.pool) && Kept(end)
      && (BoundaryKept(r, n, events, FinalHeight(r, n.core.ledger.chain)) ==>
           Finalized(r, n.core.ledger.chain) <= end.core.ledger.chain)
  {
    hide Sound, M.Consistent, Kept, HandleAll, BoundaryKept, Lawful;
    RunKeepsInvariants(r, n, events);
    BookkeepingHolds(r, n, events);
    if BoundaryKept(r, n, events, FinalHeight(r, n.core.ledger.chain)) {
      PrefixSurvivesRun(r, n, events, Finalized(r, n.core.ledger.chain));
    }
  }

  /** After every run of events, each block of the active chain that was not in fork choice at the
      start carries the state root of the chain below it. */
  lemma {:induction false} NodeRunCommits(r: Rules, n: NodeState, events: seq<Event>, known: set<Hash>)
    requires Lawful(r) && Sound(r, n.core) && n.core.ledger.chain != [] && AllCommit(r, n.core, known)
    ensures
      var end := HandleAll(r, n, events).core;
      && AllCommit(r, end, known)
      && forall k :: 0 < k < |end.ledger.chain| && end.ledger.chain[k].header.hash !in known ==>
           Commits(r, end.genesis, end.ledger.chain[..k], end.ledger.chain[k])
    decreases |events|
  {
    hide Sound, Handle, HandleSteps, Feed, AllCommit, Commits, Lawful;
    if events == [] {
      RunCommits(r, n.core, [], known);
      FeedNothing(r, n.core);
    } else {
      HandleIsFeed(r, n, events[0]);
      HandleKeepsSound(r, n, events[0]);
      RunCommits(r, n.core, HandleSteps(r, n, events[0]), known);
      CommitIgnoresPool(r, Feed(r, n.core, HandleSteps(r, n, events[0])), Handle(r, n, events[0]).core.pool, known);
      NodeRunCommits(r, Handle(r, n, events[0]), events[1..], known);
    }
  }

  lemma CommitIgnoresPool(r: Rules, s: Core, pool: M.Pool, known: set<Hash>)
    requires AllCommit(r, s, known)
    ensures AllCommit(r, s.(pool := pool), known)
  {
    hide ChainTo;
  }

  // ---- The storage tables along a run ----

  /** What the ledger rules record of each block, read off the ledger's state. */
  type EventSource = State -> (Hash -> seq<E.Event>)

  function BookOf(l: Ledger, source: EventSource): S.Book {
    S.Book(l.chain, source(l.state))
  }

  /** The ledgers saved along a feed: one whenever the canonical ledger on disk changes. */
  function Saves(r: Rules, s: Core, inputs: seq<(Block, nat)>, source: EventSource): seq<S.Book>
    decreases |inputs|
  {
    if inputs == [] then [] else
    var s' := KnownParent(r, s, inputs[0].0, inputs[0].1).0;
    (if s'.disk.canonical == s.disk.canonical || s'.disk.canonical.None? then []
     else [BookOf(s'.disk.canonical.value, source)]) + Saves(r, s', inputs[1..], source)
  }

  ghost predicate AllStorable(books: seq<S.Book>, ok: Block -> bool) {
    forall i :: 0 <= i < |books| ==> S.Storable(books[i], ok, |books[i].chain|)
  }

  /** The store was last given the node's ledger, and nothing was refused since. */
  ghost predicate StoreHolds(books: seq<S.Book>, l: Ledger, source: EventSource, ok: Block -> bool) {
    books != [] && books[|books| - 1] == BookOf(l, source) && AllStorable(books, ok)
  }

  lemma {:induction false} StoreFollows(
      r: Rules, s: Core, inputs: seq<(Block, nat)>, books: seq<S.Book>, source: EventSource, ok: Block -> bool)
    requires Lawful(r) && Sound(r, s) && s.ledger.chain != [] && StoreHolds(books, s.ledger, source, ok)
    requires AllStorable(Saves(r, s, inputs, source), ok)
    ensures StoreHolds(books + Saves(r, s, inputs, source), Feed(r, s, inputs).ledger, source, ok)
    decreases |inputs|
  {
    hide KnownParent, ActiveMoves, Sound, AllStorable, Lawful, StoreHolds, Saves;
    if inputs == [] {
      SavesNothing(r, s, source);
      assert books + [] == books;
    } else {
      var (b, now) := inputs[0];
      var s' := KnownParent(r, s, b, now).0;
      StepIsSound(r, s, b, now);
      CanonicalIsActive(r, s);
      CanonicalIsActive(r, s');
      SavesUnfold(r, s, inputs, source);
      var here := if s'.ledger == s.ledger then [] else [BookOf(s'.ledger, source)];
      var later := Saves(r, s', inputs[1..], source);
      SplitStorable(here, later, ok);
      StoreStep(books, s.ledger, s'.ledger, source, ok);
      StoreFollows(r, s', inputs[1..], books + here, source, ok);
      assert books + (here + later) == books + here + later;
    }
  }

  lemma SavesNothing(r: Rules, s: Core, source: EventSource)
    ensures Saves(r, s, [], source) == []
  {
  }

  lemma SavesUnfold(r: Rules, s: Core, inputs: seq<(Block, nat)>, source: EventSource)
    requires inputs != []
    requires
      var s' := KnownParent(r, s, inputs[0].0, inputs[0].1).0;
      s.disk.canonical == Some(s.ledger) && s'.disk.canonical == Some(s'.ledger)
    ensures
      var s' := KnownParent(r, s, inputs[0].0, inputs[0].1).0;
      Saves(r, s, inputs, source) ==
        (if s'.ledger == s.ledger then [] else [BookOf(s'.ledger, source)]) + Saves(r, s', inputs[1..], source)
  {
    hide KnownParent;
  }

  lemma StoreStep(books: seq<S.Book>, l: Ledger, l': Ledger, source: EventSource, ok: Block -> bool)
    requires StoreHolds(books, l, source, ok)
    requires AllStorable(if l' == l then [] else [BookOf(l', source)], ok)
    ensures StoreHolds(books + (if l' == l then [] else [BookOf(l', source)]), l', source, ok)
  {
    hide S.Storable;
    var here := if l' == l then [] else [BookOf(l', source)];
    JoinStorable(books, here, ok);
    if here == [] { assert books + here == books; }
  }

  lemma CanonicalIsActive(r: Rules, s: Core)
    requires Sound(r, s) && s.ledger.chain != []
    ensures s.disk.canonical == Some(s.ledger)
  {
    hide Rooted, Matches, Replay;
  }

  lemma SplitStorable(a: seq<S.Book>, b: seq<S.Book>, ok: Block -> bool)
    requires AllStorable(a + b, ok)
    ensures AllStorable(a, ok) && AllStorable(b, ok)
  {
    hide S.Storable;
    assert forall i :: 0 <= i < |a| ==> (a + b)[i] == a[i];
    assert forall i :: 0 <= i < |b| ==> (a + b)[|a| + i] == b[i];
  }

  lemma JoinStorable(a: seq<S.Book>, b: seq<S.Book>, ok: Block -> bool)
    requires AllStorable(a, ok) && AllStorable(b, ok)
    ensures AllStorable(a + b, ok)
  {
    hide S.Storable;
  }

  /** The ledgers saved along a run of events. */
  function RunSaves(r: Rules, n: NodeState, events: seq<Event>, source: EventSource): seq<S.Book>
    decreases |events|
  {
    if events == [] then [] else
    Saves(r, n.core, HandleSteps(r, n, events[0]), source) +
      RunSaves(r, Handle(r, n, events[0]), events[1..], source)
  }

  lemma {:induction false} StoreFollowsRun(
      r: Rules, n: NodeState, events: seq<Event>, books: seq<S.Book>, source: EventSource, ok: Block -> bool)
    requires Lawful(r) && Sound(r, n.core) && n.core.ledger.chain != []
    requires StoreHolds(books, n.core.ledger, source, ok) && AllStorable(RunSaves(r, n, events, source), ok)
    ensures
      var end := HandleAll(r, n, events).core;
      && Sound(r, end) && end.ledger.chain != []
      && StoreHolds(books + RunSaves(r, n, events, source), end.ledger, source, ok)
    decreases |events|
  {
    hide Sound, Feed, Handle, HandleSteps, Saves, Lawful, StoreHolds, AllStorable;
    if events == [] {
      assert books + [] == books;
    } else {
      var n' := Handle(r, n, events[0]);
      var here, later := Saves(r, n.core, HandleSteps(r, n, events[0]), source), RunSaves(r, n', events[1..], source);
      SplitStorable(here, later, ok);
      HandleIsFeed(r, n, events[0]);
      HandleKeepsSound(r, n, events[0]);
      StoreFollows(r, n.core, HandleSteps(r, n, events[0]), books, source, ok);
      StoreFollowsRun(r, n', events[1..], books + here, source, ok);
      assert books + (here + later) == books + here + later;
    }
  }

  lemma LastSavedIsHeld(books: seq<S.Book>, l: Ledger, source: EventSource, ok: Block -> bool)
    requires StoreHolds(books, l, source, ok)
    ensures S.LastSaved(books, ok) == Some(BookOf(l, source)) && BookOf(l, source).chain == l.chain
  {
    hide S.Storable;
    assert S.Storable(books[|books| - 1], ok, |books[|books| - 1].chain|);
  }

  lemma ActiveChainStacked(r: Rules, s: Core)
    requires Sound(r, s) && s.ledger.chain != []
    requires forall i :: 0 <= i < |s.ledger.chain| ==> I.Sized(s.ledger.chain[i])
    ensures I.Stacked(s.ledger.chain)
  {
    hide I.Sized, ChainTo, WellFormed, Faithful;
    ChainShape(s.tree, TipHash(s.ledger));
  }

  /** After every run of events whose ledgers the store accepts, lookups by transaction, address and
      miner return what searching the node's active chain returns, in chain order, with nothing left
      over from branches the node has abandoned. */
  lemma LookupsFollowActiveChain(
      r: Rules, n: NodeState, events: seq<Event>, t: S.Tables, books: seq<S.Book>, source: EventSource,
      ok: Block -> bool, hash: Hash, a: Address)
    requires Lawful(r) && Sound(r, n.core) && n.core.ledger.chain != []
    requires StoreHolds(books, n.core.ledger, source, ok) && AllStorable(RunSaves(r, n, events, source), ok)
    requires
      var chain := HandleAll(r, n, events).core.ledger.chain;
      forall i :: 0 <= i < |chain| ==> I.Sized(chain[i])
    requires hash < B.Pow256(I.HASH_SIZE) && a < B.Pow256(I.ADDRESS_SIZE)
    ensures
      var chain := HandleAll(r, n, events).core.ledger.chain;
      var now := S.SaveAll(t, books + RunSaves(r, n, events, source), ok);
      && I.LoadTransaction(now.blocks, now.txs, hash) == Ok(I.LastInChain(chain, hash))
      && S.AddressLocations(now, a) == H.History(chain, a)
      && S.MinerLocations(now, a) == H.Mined(chain, a)
  {
    hide *;
    var end := HandleAll(r, n, events).core;
    StoreFollowsRun(r, n, events, books, source, ok);
    LastSavedIsHeld(books + RunSaves(r, n, events, source), end.ledger, source, ok);
    ActiveChainStacked(r, end);
    S.LookupsFollowLastSave(t, books + RunSaves(r, n, events, source), ok, hash, a);
  }

  /** Event lookups likewise: by block and by address they return the events of the active ledger in
      chain order, by transaction exactly when no two of its events share a position. */
  lemma EventLookupsFollowActiveChain(
      r: Rules, n: NodeState, events: seq<Event>, t: S.Tables, books: seq<S.Book>, source: EventSource,
      ok: Block -> bool, hash: Hash, a: Address)
    requires Lawful(r) && Sound(r, n.core) && n.core.ledger.chain != []
    requires StoreHolds(books, n.core.ledger, source, ok) && AllStorable(RunSaves(r, n, events, source), ok)
    requires S.KeepsEvents(BookOf(HandleAll(r, n, events).core.ledger, source))
    requires hash < B.Pow256(I.HASH_SIZE) && a < B.Pow256(I.ADDRESS_SIZE)
    ensures
      var book := BookOf(HandleAll(r, n, events).core.ledger, source);
      var all := S.AllEvents(book, |book.chain|);
      var now := S.SaveAll(t, books + RunSaves(r, n, events, source), ok);
      && E.LoadEvents(now.blockEvents, now.events, I.HashKey(hash)) == Ok(E.Selected(E.ByBlock, all, hash))
      && E.LoadEvents(now.addressEvents, now.events, I.AddressKey(a)) == Ok(E.Selected(E.ByAddress, all, a))
      && (E.LoadEvents(now.txEvents, now.events, I.HashKey(hash)) == Ok(E.Selected(E.ByTransaction, all, hash))
          <==> E.ClashFree(E.ByTransaction, E.Selected(E.ByTransaction, all, hash)))
  {
    hide *;
    var end := HandleAll(r, n, events).core;
    StoreFollowsRun(r, n, events, books, source, ok);
    LastSavedIsHeld(books + RunSaves(r, n, events, source), end.ledger, source, ok);
    S.EventLookupsFollowLastSave(t, books + RunSaves(r, n, events, source), ok, hash, a);
  }
}

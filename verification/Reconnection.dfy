/** No block waits for a parent that is there: reconnecting leaves nothing behind, except below a block
    that entered fork choice in a step that failed. */
module Reconnection {
  import opened Paqus
  import opened ForkTree
  import opened CoreCache
  import opened ChainEngine
  import opened ChainSafety
  import opened StateRoots
  import opened OrphanPool
  import opened OrphanBookkeeping
  import opened NodeRuns
  import opened ParentRequests

  /** The step fails although its block entered fork choice: the node declines to move to it, or cannot. */
  ghost predicate Stalls(r: Rules, s: Core, b: Block, now: nat) {
    KnownParent(r, s, b, now).1.Failed? && Acceptable(r, s, b)
  }

  /** None of the steps stalls, each taken from where the ones before it lead. */
  ghost predicate NeverStalls(r: Rules, s: Core, steps: seq<(Block, nat)>)
    decreases |steps|
  {
    steps != [] ==>
      && !Stalls(r, s, steps[0].0, steps[0].1)
      && NeverStalls(r, KnownParent(r, s, steps[0].0, steps[0].1).0, steps[1..])
  }

  lemma {:induction false} StallsNowhere(r: Rules, s: Core, first: seq<(Block, nat)>, second: seq<(Block, nat)>)
    requires NeverStalls(r, s, first + second)
    ensures NeverStalls(r, s, first) && NeverStalls(r, Feed(r, s, first), second)
    decreases |first|
  {
    hide KnownParent, Stalls;
    if first == [] {
      assert first + second == second;
    } else {
      assert (first + second)[1..] == first[1..] + second;
      StallsNowhere(r, KnownParent(r, s, first[0].0, first[0].1).0, first[1..], second);
    }
  }

  /** Every block that waits for a parent in fork choice is one of `kids`, or waits for one of `parents`. */
  ghost predicate OnlyThese(n: NodeState, parents: seq<Hash>, kids: seq<Hash>) {
    forall h :: h in n.orphans.blocks && n.orphans.blocks[h].block.header.previous in n.core.tree ==>
      n.orphans.blocks[h].block.header.previous in parents || h in kids
  }

  /** No block waits for a parent that fork choice has. */
  ghost predicate Unconnected(n: NodeState) {
    OnlyThese(n, [], [])
  }

  lemma FewerConnect(n: NodeState, n': NodeState, parents: seq<Hash>, kids: seq<Hash>)
    requires OnlyThese(n, parents, kids) && n'.core.tree.Keys <= n.core.tree.Keys
    requires forall h :: h in n'.orphans.blocks ==> h in n.orphans.blocks && n'.orphans.blocks[h] == n.orphans.blocks[h]
    ensures OnlyThese(n', parents, kids)
  {
  }

  lemma PruneConnects(n: NodeState, now: nat, parents: seq<Hash>, kids: seq<Hash>)
    requires OnlyThese(n, parents, kids)
    ensures OnlyThese(PruneOrphans(n, now), parents, kids)
  {
    hide PruneOrphans, Stale, OnlyThese;
    OrphanBookkeeping.PruneExact(n, now);
    PruneTouchesOrphans(n, now);
    FewerConnect(n, PruneOrphans(n, now), parents, kids);
  }

  /** A step that does not stall adds its block when it succeeds, and nothing when it fails. */
  lemma StepAdds(r: Rules, s: Core, b: Block, now: nat)
    requires Lawful(r) && Sound(r, s) && !Stalls(r, s, b, now)
    ensures
      var (s', outcome) := KnownParent(r, s, b, now);
      && (outcome.Failed? ==> s' == s)
      && s'.tree.Keys <= s.tree.Keys + {b.header.hash}
  {
    hide KnownParent, Sound, Lawful, Acceptable;
    AcceptedIff(r, s, b, now);
    StepTree(r, s, b, now);
    if Acceptable(r, s, b) { InsertKeys(s.tree, b); }
  }

  lemma InsertKeys(t: Tree, b: Block)
    requires Insert(t, b).Ok?
    ensures Insert(t, b).value.Keys == t.Keys + {b.header.hash}
  {
  }

  lemma CacheConnects(n: NodeState, b: Block, now: nat, parents: seq<Hash>, kids: seq<Hash>)
    requires OnlyThese(n, parents, kids) && b.header.previous !in n.core.tree
    ensures OnlyThese(CacheOrphan(n, b, now), parents, kids)
  {
    hide CacheOrphan, InReach, MadeRoomFor;
    CacheAsks(n, b, now);
    if StartsWaiting(n, b, now) {
      OthersWaited(Lasting(n, now), CacheOrphan(n, b, now).orphans.blocks, b, now);
    }
  }

  lemma NextKid(n: NodeState, taken: NodeState, parents: seq<Hash>, k: Hash, more: seq<Hash>)
    requires OnlyThese(n, parents, [k] + more) && taken == TakeOrphan(n, k)
    ensures OnlyThese(taken, parents, more)
  {
  }

  lemma Joined(n: NodeState, core: Core, parents: seq<Hash>, kids: seq<Hash>, k: Hash)
    requires OnlyThese(n, parents, kids) && core.tree.Keys <= n.core.tree.Keys + {k}
    ensures OnlyThese(n.(core := core), parents + [k], kids)
  {
  }

  lemma {:induction false} ReconnectConnects(
      r: Rules, n: NodeState, kids: seq<Hash>, parents: seq<Hash>, now: nat)
    requires Lawful(r) && Sound(r, n.core) && n.core.ledger.chain != []
    requires Tidy(n.orphans, Rest(kids)) && NoRepeats(kids) && Aligned(n.requests) && OnlyThese(n, parents, kids)
    requires NeverStalls(r, n.core, ReconnectSteps(r, n, kids, now))
    ensures
      var (n', more) := Reconnect(r, n, kids, parents, now);
      OnlyThese(n', more, []) && Sound(r, n'.core) && n'.core.ledger.chain != [] && Kept(n')
    decreases |kids|
  {
    hide Sound, Lawful, KnownParent, CacheOrphan, Tidy, Aligned, OnlyThese, Stalls, ActiveMoves;
    ReconnectKeepsKept(r, n, kids, parents, now);
    if kids != [] {
      var k, more := kids[0], kids[1..];
      assert kids == [k] + more;
      assert NoRepeats(more) && Rest(more) == Rest(kids) - {k} by { FirstOnce(kids); }
      if k !in n.orphans.blocks {
        LooseMayShrink(n.orphans, Rest(kids), k);
        NotWaiting(n, parents, k, more);
        ReconnectConnects(r, n, more, parents, now);
      } else {
        var child, taken := n.orphans.blocks[k].block, TakeOrphan(n, k);
        ListedHash(n.orphans, Rest(kids), k);
        TakeKeepsTidy(n.orphans, k, Rest(kids));
        NextKid(n, taken, parents, k, more);
        var (core, outcome) := KnownParent(r, taken.core, child, now);
        var next := taken.(core := core);
        var again := outcome == Failed(ForkChoiceError(MissingParent));
        var then' := if again then CacheOrphan(next, child, now) else next;
        var steps := ReconnectSteps(r, then', more, now);
        assert ReconnectSteps(r, n, kids, now) == [(child, now)] + steps;
        assert ([(child, now)] + steps)[1..] == steps;
        StepAdds(r, taken.core, child, now);
        StepIsSound(r, taken.core, child, now);
        CachingKeepsCore(next, child, now);
        CacheKeepsTidy(next, child, now, Rest(more));
        if outcome.Done? {
          Joined(taken, core, parents, more, k);
          ReconnectConnects(r, next, more, parents + [k], now);
        } else {
          assert next == taken;
          if again {
            WaitsOnlyForParent(r, taken.core, child, now);
            CacheConnects(next, child, now, parents, more);
          }
          ReconnectConnects(r, then', more, parents, now);
        }
      }
    } else {
      assert Reconnect(r, n, kids, parents, now) == (n, parents);
    }
  }

  lemma FirstOnce(kids: seq<Hash>)
    requires kids != [] && NoRepeats(kids)
    ensures NoRepeats(kids[1..]) && Rest(kids[1..]) == Rest(kids) - {kids[0]}
  {
    var more := kids[1..];
    assert kids == [kids[0]] + more;
    assert forall i :: 0 <= i < |more| ==> more[i] == kids[i + 1];
  }

  lemma NotWaiting(n: NodeState, parents: seq<Hash>, k: Hash, more: seq<Hash>)
    requires OnlyThese(n, parents, [k] + more) && k !in n.orphans.blocks
    ensures OnlyThese(n, parents, more)
  {
  }

  /** Taking `p` off the worklist: its children are those on its list. */
  lemma ListCovers(n: NodeState, p: Hash, rest: seq<Hash>)
    requires OnlyThese(n, rest + [p], []) && Tidy(n.orphans, {})
    ensures p !in n.orphans.children ==> OnlyThese(n, rest, [])
    ensures p in n.orphans.children ==> OnlyThese(DropList(n, p), rest, n.orphans.children[p])
  {
  }

  lemma {:induction false} LoopConnects(r: Rules, n: NodeState, parents: seq<Hash>, now: nat)
    requires Lawful(r) && Sound(r, n.core) && n.core.ledger.chain != [] && Kept(n) && OnlyThese(n, parents, [])
    requires NeverStalls(r, n.core, ReconnectAllSteps(r, n, parents, now))
    ensures Unconnected(ReconnectAll(r, n, parents, now))
    decreases 2 * |n.orphans.blocks| + |parents|
  {
    hide Sound, Lawful, Tidy, Aligned, OnlyThese, Reconnect, ReconnectSteps, NeverStalls;
    if parents != [] {
      var p, rest := parents[|parents| - 1], parents[..|parents| - 1];
      assert rest + [p] == parents;
      ListCovers(n, p, rest);
      if p !in n.orphans.children {
        LoopConnects(r, n, rest, now);
      } else {
        var kids := n.orphans.children[p];
        var dropped := DropList(n, p);
        var (next, more) := Reconnect(r, dropped, kids, rest, now);
        DropKeepsTidy(n.orphans, p);
        StallsNowhere(r, n.core, ReconnectSteps(r, dropped, kids, now), ReconnectAllSteps(r, next, more, now));
        ReconnectIsFeed(r, dropped, kids, rest, now);
        ReconnectConnects(r, dropped, kids, rest, now);
        LoopConnects(r, next, more, now);
      }
    }
  }

  /** A delivery none of whose steps stalls leaves no block waiting for a parent that is there. */
  lemma DeliveryConnects(r: Rules, n: NodeState, b: Block, now: nat)
    requires Lawful(r) && Sound(r, n.core) && n.core.ledger.chain != [] && Kept(n) && Unconnected(n)
    requires NeverStalls(r, n.core, ApplySteps(r, n, b, now))
    ensures Unconnected(ApplyBlock(r, n, b, now).0)
  {
    hide Sound, Lawful, Tidy, Aligned, OnlyThese, KnownParent, CacheOrphan, ReconnectAll, ReconnectAllSteps,
      PruneOrphans,
      Stalls, ActiveMoves;
    PruneTouchesOrphans(n, now);
    PruneConnects(n, now, [], []);
    PruneKeepsTidy(n, now, {});
    var p := PruneOrphans(n, now);
    var (core, outcome) := KnownParent(r, p.core, b, now);
    var next := p.(core := core);
    StepAdds(r, p.core, b, now);
    StepIsSound(r, p.core, b, now);
    if outcome.Done? {
      Joined(p, core, [], [], b.header.hash);
      assert [] + [b.header.hash] == [b.header.hash];
      PruneTouchesOrphans(next, now);
      PruneConnects(next, now, [b.header.hash], []);
      PruneKeepsTidy(next, now, {});
      var connected := PruneOrphans(next, now);
      var steps := ReconnectAllSteps(r, connected, [b.header.hash], now);
      assert ApplySteps(r, n, b, now) == [(b, now)] + steps && ([(b, now)] + steps)[1..] == steps;
      LoopConnects(r, connected, [b.header.hash], now);
    } else {
      assert next == p;
      if outcome.error == ForkChoiceError(MissingParent) {
        WaitsOnlyForParent(r, p.core, b, now);
        CacheConnects(next, b, now, [], []);
      } else {
        FewerConnect(next, next.(failures := Min(next.failures + 1, U64_MAX)), [], []);
      }
    }
  }

  // ---- Where it fails ----

  lemma FailedReorgKeepsTree(r: Rules, s: Core, now: nat)
    requires Reorg(r, s, now).1.Failed?
    ensures Reorg(r, s, now).0.tree == s.tree
  {
    hide ChainTo, Replay, CommonAncestor, BranchFrom, BestTip, RecoverBlocks, Headers, FromChain, Prune, BlockHashes,
      BlockWithHash;
  }

  lemma StalledTree(r: Rules, s: Core, b: Block, now: nat)
    requires Lawful(r) && Sound(r, s) && Stalls(r, s, b, now)
    ensures Insert(s.tree, b).Ok? && KnownParent(r, s, b, now).0.tree == Insert(s.tree, b).value
  {
    hide Sound, ChainTo, Replay, CheckHeader, CheckState, Lawful, Acceptable, Insert, Reorg, Extend, BestTip;
    ChecksAre(r, s, b);
    var grown := s.(tree := Insert(s.tree, b).value);
    if Reorg(r, grown, now).1.Failed? { FailedReorgKeepsTree(r, grown, now); }
  }

  /** When the delivered block itself stalls, the property survives exactly if no block was waiting for
      it: such blocks are not reconnected. */
  lemma StalledLeavesWaiting(r: Rules, n: NodeState, b: Block, now: nat)
    requires Lawful(r) && Sound(r, n.core) && Kept(n) && Unconnected(n) && Stalls(r, n.core, b, now)
    ensures Unconnected(ApplyBlock(r, n, b, now).0) <==>
      forall h :: h in Lasting(n, now) ==> Lasting(n, now)[h].block.header.previous != b.header.hash
  {
    hide Sound, Lawful, KnownParent, Kept, CacheOrphan, PruneOrphans, InReach, Acceptable, Insert, ProcessOrphans;
    PruneTouchesOrphans(n, now);
    PrunedAre(n, now);
    StalledTree(r, n.core, b, now);
    InsertKeys(n.core.tree, b);
    StalledReasons(r, n.core, b, now);
    var n' := ApplyBlock(r, n, b, now).0;
    assert n'.orphans == PruneOrphans(n, now).orphans && n'.core.tree.Keys == n.core.tree.Keys + {b.header.hash};
  }

  lemma PrunedAre(n: NodeState, now: nat)
    ensures PruneOrphans(n, now).orphans.blocks == Lasting(n, now)
  {
    hide PruneOrphans;
    OrphanBookkeeping.PruneExact(n, now);
  }

  lemma StalledReasons(r: Rules, s: Core, b: Block, now: nat)
    requires Lawful(r) && Sound(r, s) && Stalls(r, s, b, now)
    ensures !KnownParent(r, s, b, now).1.error.ForkChoiceError?
  {
    hide Sound, CheckHeader, CheckState, Lawful, Acceptable, Insert, Place;
    ChecksAre(r, s, b);
    PlacedOrElse(r, s.(tree := Insert(s.tree, b).value), b, CheckState(r, s, b).value, now);
  }

  // ---- Every run ----

  ghost predicate NothingStalls(r: Rules, n: NodeState, events: seq<Event>)
    decreases |events|
  {
    events != [] ==>
      && NeverStalls(r, n.core, HandleSteps(r, n, events[0]))
      && NothingStalls(r, Handle(r, n, events[0]), events[1..])
  }

  /** Along every run in which no step stalls, no block waits for a parent that fork choice has. */
  lemma {:induction false} NothingLeftWaiting(r: Rules, n: NodeState, events: seq<Event>)
    requires Lawful(r) && Sound(r, n.core) && n.core.ledger.chain != [] && Kept(n) && Unconnected(n)
    requires NothingStalls(r, n, events)
    ensures Unconnected(HandleAll(r, n, events))
    decreases |events|
  {
    hide Sound, Lawful, Kept, OnlyThese, ApplyBlock, ApplySteps, NeverStalls, Drain, QueueAt;
    if events != [] {
      var n', e := Handle(r, n, events[0]), events[0];
      HandleKeepsSound(r, n, e);
      BookkeepingHolds(r, n, [e]);
      assert HandleAll(r, n, [e]) == n' by { OneEvent(r, n, e); }
      if e.Deliver? {
        DeliveryConnects(r, n, e.block, e.at);
      } else {
        FewerConnect(n, n', [], []);
      }
      NothingLeftWaiting(r, n', events[1..]);
    }
  }

  lemma OneEvent(r: Rules, n: NodeState, e: Event)
    ensures HandleAll(r, n, [e]) == Handle(r, n, e)
  {
    hide Handle;
    assert [e][1..] == [];
    assert HandleAll(r, Handle(r, n, e), []) == Handle(r, n, e);
  }
}

/** Which parents a node asks for: the missing parent of every block that waits. */
module ParentRequests {
  import opened Paqus
  import opened ForkTree
  import opened ChainEngine
  import opened StateRoots
  import opened OrphanPool
  import opened OrphanBookkeeping

  // ---- One block ----

  /** At most 512 blocks above the active tip. */
  ghost predicate InReach(l: Ledger, height: nat) {
    height <= Min((if l.chain == [] then 0 else |l.chain| - 1) + 512, U64_MAX)
  }

  /** The waiting blocks that are neither older than ten minutes nor out of reach. */
  ghost function Lasting(n: NodeState, now: nat): map<Hash, Orphan> {
    map h | h in n.orphans.blocks && now <= n.orphans.blocks[h].receivedAt + 600
      && InReach(n.core.ledger, n.orphans.blocks[h].block.header.height) :: n.orphans.blocks[h]
  }

  /** The block has to wait: it is not genesis, within reach, not known and not waiting yet. */
  ghost predicate StartsWaiting(n: NodeState, b: Block, now: nat) {
    && b.header.height > 0 && InReach(n.core.ledger, b.header.height)
    && b.header.hash !in n.core.tree && b.header.hash !in Lasting(n, now)
  }

  /** From `q` to `q'`, exactly `h` was asked for, to go out by `at`. */
  ghost predicate Asks(q: Requests, q': Requests, h: Hash, at: nat) {
    && q'.queued == q.queued + {h}
    && q'.queue == (if h in q.queued then q.queue else q.queue + [h])
    && q'.retryAt.Keys == q.retryAt.Keys + {h}
    && q'.retryAt[h] <= at && (h in q.retryAt ==> q'.retryAt[h] <= q.retryAt[h])
    && (forall k :: k in q.retryAt && k != h ==> q'.retryAt[k] == q.retryAt[k])
  }

  /** The buffer with the block in it: if it was full, the lowest hash made way. */
  ghost predicate MadeRoomFor(before: map<Hash, Orphan>, after: map<Hash, Orphan>, b: Block, now: nat) {
    if |before| < 1024 then after == before[b.header.hash := Orphan(b, now)] else
    exists h: Hash :: IsLowest(before.Keys, h) && after == (before - {h})[b.header.hash := Orphan(b, now)]
  }

  lemma QueueAsks(t: Tree, q: Requests, h: Hash, at: nat)
    ensures h in t ==> QueueAt(t, q, h, at) == q
    ensures h !in t ==> Asks(q, QueueAt(t, q, h, at), h, at)
  {
  }

  /** What keeping `b` for later does: a block that starts waiting has its parent asked for, if fork
      choice lacks it, to go out at once; the parent and nothing else. A block that does not wait
      changes no request. */
  ghost predicate Deferred(n: NodeState, b: Block, now: nat, n': NodeState) {
    && n'.core == n.core
    && if StartsWaiting(n, b, now) then
         && MadeRoomFor(Lasting(n, now), n'.orphans.blocks, b, now)
         && (b.header.previous in n.core.tree ==> n'.requests == n.requests)
         && (b.header.previous !in n.core.tree ==> Asks(n.requests, n'.requests, b.header.previous, now))
       else n'.orphans.blocks == Lasting(n, now) && n'.requests == n.requests
  }

  lemma CacheAsks(n: NodeState, b: Block, now: nat)
    ensures Deferred(n, b, now, CacheOrphan(n, b, now))
  {
    hide PruneOrphans, QueueAt, Asks, MakeRoom, AddOrphan, MadeRoomFor;
    PruneExact(n, now);
    PruneTouchesOrphans(n, now);
    QueueAsks(n.core.tree, n.requests, b.header.previous, now);
    assert PruneOrphans(n, now).orphans.blocks == Lasting(n, now);
    RoomMade(PruneOrphans(n, now).orphans, b, now);
  }

  lemma RoomMade(o: Orphans, b: Block, now: nat)
    ensures MadeRoomFor(o.blocks, AddOrphan(MakeRoom(o), b, now).blocks, b, now)
  {
    hide Unlist, IsLowest;
    if |o.blocks| >= MAX_ORPHAN_BLOCKS {
      LowestIsLowest(o.blocks);
    }
  }

  lemma LowestIsLowest(blocks: map<Hash, Orphan>)
    requires blocks != map[]
    ensures IsLowest(blocks.Keys, LowestHash(blocks))
  {
    LowestExists(blocks.Keys);
  }

  /** Retrying a parent asks for it again, to go out in five seconds unless it was due before, and not
      at all once fork choice has it; nothing else changes. */
  lemma RetryAsks(n: NodeState, h: Hash, now: nat)
    ensures
      var n' := RetryRequest(n, h, now);
      && n' == n.(requests := n'.requests)
      && (h in n.core.tree ==> n' == n)
      && (h !in n.core.tree ==>
           && Asks(n.requests, n'.requests, h, Min(now + 5, U64_MAX))
           && (h !in n.requests.retryAt ==> n'.requests.retryAt[h] == Min(now + 5, U64_MAX)))
  {
    hide QueueAt, Asks;
    QueueAsks(n.core.tree, n.requests, h, Min(now + 5, U64_MAX));
    if h !in n.requests.retryAt { FirstAsked(n.core.tree, n.requests, h, Min(now + 5, U64_MAX)); }
  }

  lemma FirstAsked(t: Tree, q: Requests, h: Hash, at: nat)
    requires h !in q.retryAt
    ensures h !in t ==> h in QueueAt(t, q, h, at).retryAt && QueueAt(t, q, h, at).retryAt[h] == at
  {
  }

  // ---- One event ----

  /** What an event does for the requests: every block that waits afterwards has its parent queued or
      has a sibling that waited before, and nothing leaves the queue but `out`. */
  ghost predicate KeepsAsking(n: NodeState, n': NodeState, out: set<Hash>) {
    && n.requests.queued <= n'.requests.queued + out
    && forall h :: h in n'.orphans.blocks ==>
         var p := n'.orphans.blocks[h].block.header.previous;
         p in n'.requests.queued || WaitsFor(n, p)
  }

  ghost predicate WaitsFor(n: NodeState, p: Hash) {
    exists h :: h in n.orphans.blocks && n.orphans.blocks[h].block.header.previous == p
  }

  lemma AskingChains(n: NodeState, m: NodeState, n': NodeState)
    requires KeepsAsking(n, m, {}) && KeepsAsking(m, n', {})
    ensures KeepsAsking(n, n', {})
  {
    forall h | h in n'.orphans.blocks
      ensures
        var p := n'.orphans.blocks[h].block.header.previous;
        p in n'.requests.queued || WaitsFor(n, p)
    {
      var p := n'.orphans.blocks[h].block.header.previous;
      if p !in n'.requests.queued {
        var g :| g in m.orphans.blocks && m.orphans.blocks[g].block.header.previous == p;
      }
    }
  }

  lemma FewerWait(n: NodeState, n': NodeState)
    requires n'.requests == n.requests
    requires forall h :: h in n'.orphans.blocks ==> h in n.orphans.blocks && n'.orphans.blocks[h] == n.orphans.blocks[h]
    ensures KeepsAsking(n, n', {})
  {
    forall h | h in n'.orphans.blocks ensures WaitsFor(n, n'.orphans.blocks[h].block.header.previous) {
      assert h in n.orphans.blocks;
    }
  }

  lemma CacheKeepsAsking(n: NodeState, b: Block, now: nat)
    requires b.header.previous !in n.core.tree
    ensures KeepsAsking(n, CacheOrphan(n, b, now), {})
  {
    hide CacheOrphan, InReach, MadeRoomFor, KeepsAsking;
    CacheAsks(n, b, now);
    var n' := CacheOrphan(n, b, now);
    if StartsWaiting(n, b, now) {
      OthersWaited(Lasting(n, now), n'.orphans.blocks, b, now);
      OneMoreAsks(n, n', b);
    } else {
      FewerWait(n, n');
    }
  }

  lemma OthersWaited(before: map<Hash, Orphan>, after: map<Hash, Orphan>, b: Block, now: nat)
    requires MadeRoomFor(before, after, b, now)
    ensures forall h :: h in after ==> after[h].block == b || (h in before && after[h] == before[h])
  {
    hide IsLowest;
  }

  lemma OneMoreAsks(n: NodeState, n': NodeState, b: Block)
    requires n.requests.queued <= n'.requests.queued && b.header.previous in n'.requests.queued
    requires forall h :: h in n'.orphans.blocks ==>
      || n'.orphans.blocks[h].block == b
      || (h in n.orphans.blocks && n'.orphans.blocks[h] == n.orphans.blocks[h])
    ensures KeepsAsking(n, n', {})
  {
    forall h | h in n'.orphans.blocks && n'.orphans.blocks[h].block != b
      ensures WaitsFor(n, n'.orphans.blocks[h].block.header.previous)
    {
      assert h in n.orphans.blocks;
    }
  }

  lemma PruneKeepsAsking(n: NodeState, now: nat)
    ensures KeepsAsking(n, PruneOrphans(n, now), {})
  {
    hide PruneOrphans, Stale, KeepsAsking;
    PruneExact(n, now);
    PruneTouchesOrphans(n, now);
    FewerWait(n, PruneOrphans(n, now));
  }

  /** Only an unknown parent makes a block wait. */
  lemma WaitsOnlyForParent(r: Rules, s: Core, b: Block, now: nat)
    requires KnownParent(r, s, b, now).1 == Failed(ForkChoiceError(MissingParent))
    ensures KnownParent(r, s, b, now).0 == s && b.header.height > 0 && b.header.previous !in s.tree
  {
    hide CheckHeader, CheckState, Place;
    HeaderChecked(r, s, b);
    StateErrors(r, s, b);
    if CheckHeader(r, s, b).None? && CheckState(r, s, b).Ok? && Insert(s.tree, b).Ok? {
      PlacedOrElse(r, s.(tree := Insert(s.tree, b).value), b, CheckState(r, s, b).value, now);
    }
  }

  lemma {:induction false} ReconnectKeepsAsking(r: Rules, n: NodeState, kids: seq<Hash>, parents: seq<Hash>, now: nat)
    ensures KeepsAsking(n, Reconnect(r, n, kids, parents, now).0, {})
    decreases |kids|
  {
    hide KnownParent, CacheOrphan, KeepsAsking;
    if kids == [] {
      FewerWait(n, n);
    } else if kids[0] !in n.orphans.blocks {
      ReconnectKeepsAsking(r, n, kids[1..], parents, now);
    } else {
      var child := n.orphans.blocks[kids[0]].block;
      var taken := TakeOrphan(n, kids[0]);
      var (core, outcome) := KnownParent(r, taken.core, child, now);
      var next := taken.(core := core);
      FewerWait(n, next);
      if outcome == Failed(ForkChoiceError(MissingParent)) {
        WaitsOnlyForParent(r, taken.core, child, now);
        CacheKeepsAsking(next, child, now);
        var again := CacheOrphan(next, child, now);
        AskingChains(n, next, again);
        ReconnectKeepsAsking(r, again, kids[1..], parents, now);
        AskingChains(n, again, Reconnect(r, again, kids[1..], parents, now).0);
      } else {
        var more := if outcome.Done? then parents + [kids[0]] else parents;
        ReconnectKeepsAsking(r, next, kids[1..], more, now);
        AskingChains(n, next, Reconnect(r, next, kids[1..], more, now).0);
      }
    }
  }

  lemma {:induction false} ReconnectAllKeepsAsking(r: Rules, n: NodeState, parents: seq<Hash>, now: nat)
    ensures KeepsAsking(n, ReconnectAll(r, n, parents, now), {})
    decreases 2 * |n.orphans.blocks| + |parents|
  {
    hide Reconnect, KeepsAsking;
    if parents == [] {
      FewerWait(n, n);
    } else {
      var p, rest := parents[|parents| - 1], parents[..|parents| - 1];
      if p !in n.orphans.children {
        ReconnectAllKeepsAsking(r, n, rest, now);
      } else {
        var dropped, kids := DropList(n, p), n.orphans.children[p];
        var (next, more) := Reconnect(r, dropped, kids, rest, now);
        FewerWait(n, dropped);
        ReconnectKeepsAsking(r, dropped, kids, rest, now);
        AskingChains(n, dropped, next);
        ReconnectAllKeepsAsking(r, next, more, now);
        AskingChains(n, next, ReconnectAll(r, next, more, now));
      }
    }
  }

  lemma ApplyKeepsAsking(r: Rules, n: NodeState, b: Block, now: nat)
    ensures KeepsAsking(n, ApplyBlock(r, n, b, now).0, {})
  {
    hide KnownParent, CacheOrphan, ReconnectAll, PruneOrphans, KeepsAsking;
    PruneKeepsAsking(n, now);
    var p := PruneOrphans(n, now);
    var (core, outcome) := KnownParent(r, p.core, b, now);
    var next := p.(core := core);
    FewerWait(p, next);
    AskingChains(n, p, next);
    if outcome.Done? {
      PruneKeepsAsking(next, now);
      var pruned := PruneOrphans(next, now);
      AskingChains(n, next, pruned);
      ReconnectAllKeepsAsking(r, pruned, [b.header.hash], now);
      AskingChains(n, pruned, ReconnectAll(r, pruned, [b.header.hash], now));
    } else if outcome.error == ForkChoiceError(MissingParent) {
      WaitsOnlyForParent(r, p.core, b, now);
      CacheKeepsAsking(next, b, now);
      AskingChains(n, next, CacheOrphan(next, b, now));
    } else {
      var failed := next.(failures := Min(next.failures + 1, U64_MAX));
      FewerWait(next, failed);
      AskingChains(n, next, failed);
    }
  }

  /** The hashes a drain hands out. */
  function HandedOut(n: NodeState, e: Event): set<Hash> {
    if e.DrainRequests? then set h | h in Drain(n.requests, e.at).1 else {}
  }

  lemma HandleKeepsAsking(r: Rules, n: NodeState, e: Event)
    requires Aligned(n.requests)
    ensures KeepsAsking(n, Handle(r, n, e), HandedOut(n, e))
  {
    hide ApplyBlock, KeepsAsking, Drain;
    match e {
      case Deliver(b, at) => ApplyKeepsAsking(r, n, b, at);
      case DrainRequests(at) => DrainKeepsAsking(n, at);
      case RetryParent(h, at) => RetryKeepsAsking(n, h, at);
      case Submit(_, _) => FewerWait(n, Handle(r, n, e));
      case ExpirePool(_) => FewerWait(n, Handle(r, n, e));
    }
  }

  lemma DrainKeepsAsking(n: NodeState, at: nat)
    requires Aligned(n.requests)
    ensures KeepsAsking(n, n.(requests := Drain(n.requests, at).0), set h | h in Drain(n.requests, at).1)
  {
    hide Drain;
    DrainKeepsAligned(n.requests, at);
    forall h | h in n.orphans.blocks ensures WaitsFor(n, n.orphans.blocks[h].block.header.previous) {
    }
  }

  lemma RetryKeepsAsking(n: NodeState, h: Hash, at: nat)
    ensures KeepsAsking(n, RetryRequest(n, h, at), {})
  {
    forall k | k in n.orphans.blocks ensures WaitsFor(n, n.orphans.blocks[k].block.header.previous) {
    }
  }

  // ---- Age ----

  /** No waiting block is older than ten minutes. */
  ghost predicate Young(n: NodeState, now: nat) {
    forall h :: h in n.orphans.blocks ==> now <= n.orphans.blocks[h].receivedAt + 600
  }

  lemma CacheKeepsYoung(n: NodeState, b: Block, now: nat)
    ensures Young(CacheOrphan(n, b, now), now)
  {
    hide CacheOrphan, InReach;
    CacheAsks(n, b, now);
  }

  lemma {:induction false} ReconnectKeepsYoung(r: Rules, n: NodeState, kids: seq<Hash>, parents: seq<Hash>, now: nat)
    requires Young(n, now)
    ensures Young(Reconnect(r, n, kids, parents, now).0, now)
    decreases |kids|
  {
    hide KnownParent, CacheOrphan;
    if kids != [] {
      if kids[0] !in n.orphans.blocks {
        ReconnectKeepsYoung(r, n, kids[1..], parents, now);
      } else {
        var child := n.orphans.blocks[kids[0]].block;
        var taken := TakeOrphan(n, kids[0]);
        var next := taken.(core := KnownParent(r, taken.core, child, now).0);
        CacheKeepsYoung(next, child, now);
        ReconnectKeepsYoung(r, CacheOrphan(next, child, now), kids[1..], parents, now);
        ReconnectKeepsYoung(r, next, kids[1..], parents + [kids[0]], now);
        ReconnectKeepsYoung(r, next, kids[1..], parents, now);
      }
    }
  }

  lemma {:induction false} LoopKeepsYoung(r: Rules, n: NodeState, parents: seq<Hash>, now: nat)
    requires Young(n, now)
    ensures Young(ReconnectAll(r, n, parents, now), now)
    decreases 2 * |n.orphans.blocks| + |parents|
  {
    hide Reconnect;
    if parents != [] {
      var p, rest := parents[|parents| - 1], parents[..|parents| - 1];
      if p !in n.orphans.children {
        LoopKeepsYoung(r, n, rest, now);
      } else {
        ReconnectKeepsYoung(r, DropList(n, p), n.orphans.children[p], rest, now);
        var (next, more) := Reconnect(r, DropList(n, p), n.orphans.children[p], rest, now);
        LoopKeepsYoung(r, next, more, now);
      }
    }
  }

  /** Whatever is delivered, no block is left waiting longer than ten minutes. */
  lemma DeliveryExpires(r: Rules, n: NodeState, b: Block, now: nat)
    ensures Young(ApplyBlock(r, n, b, now).0, now)
  {
    hide KnownParent, CacheOrphan, ReconnectAll, PruneOrphans, Stale;
    PruneExact(n, now);
    PruneIsYoung(n, now);
    var p := PruneOrphans(n, now);
    var next := p.(core := KnownParent(r, p.core, b, now).0);
    CacheKeepsYoung(next, b, now);
    PruneIsYoung(next, now);
    LoopKeepsYoung(r, PruneOrphans(next, now), [b.header.hash], now);
  }

  lemma PruneIsYoung(n: NodeState, now: nat)
    ensures Young(PruneOrphans(n, now), now)
  {
    hide PruneOrphans;
    PruneExact(n, now);
  }

  // ---- Every run ----

  lemma {:induction false} HandleLast(r: Rules, n: NodeState, events: seq<Event>, e: Event)
    ensures HandleAll(r, n, events + [e]) == Handle(r, HandleAll(r, n, events), e)
    decreases |events|
  {
    hide Handle;
    if events == [] {
      assert events + [e] == [e] && [e][1..] == [];
      assert HandleAll(r, Handle(r, n, e), []) == Handle(r, n, e);
    } else {
      assert (events + [e])[1..] == events[1..] + [e];
      HandleLast(r, Handle(r, n, events[0]), events[1..], e);
    }
  }

  /** Event `k` of the run handed `h` out to be requested, and it has not been queued again since. */
  ghost predicate HandedAt(r: Rules, n: NodeState, events: seq<Event>, k: nat, h: Hash) {
    && k < |events| && h in HandedOut(HandleAll(r, n, events[..k]), events[k])
    && forall m :: k < m <= |events| ==> h !in HandleAll(r, n, events[..m]).requests.queued
  }

  ghost predicate AskedFor(r: Rules, n: NodeState, events: seq<Event>, h: Hash) {
    h in HandleAll(r, n, events).requests.queued || exists k :: HandedAt(r, n, events, k, h)
  }

  lemma AskedStays(r: Rules, n: NodeState, events: seq<Event>, e: Event, h: Hash)
    requires AskedFor(r, n, events, h)
    requires
      var m := HandleAll(r, n, events);
      m.requests.queued <= Handle(r, m, e).requests.queued + HandedOut(m, e)
    ensures AskedFor(r, n, events + [e], h)
  {
    hide Handle, HandedOut, HandleAll;
    var all, m := events + [e], HandleAll(r, n, events);
    HandleLast(r, n, events, e);
    assert all[..|events|] == events && all[..|all|] == all;
    if h !in HandleAll(r, n, all).requests.queued {
      if h in m.requests.queued {
        assert HandedAt(r, n, all, |events|, h);
      } else {
        var k :| HandedAt(r, n, events, k, h);
        assert forall i :: 0 <= i <= |events| ==> all[..i] == events[..i];
        assert HandedAt(r, n, all, k, h);
      }
    }
  }

  /** Along every run that starts with nothing waiting: the parent of every block that waits is queued
      to be asked for, or was handed out for that by a drain and has not been queued again since, so
      after the block last asked for it. */
  lemma {:induction false} WaitingAreAskedFor(r: Rules, n: NodeState, events: seq<Event>)
    requires Kept(n) && n.orphans.blocks == map[]
    ensures
      var end := HandleAll(r, n, events);
      forall h :: h in end.orphans.blocks ==> AskedFor(r, n, events, end.orphans.blocks[h].block.header.previous)
    decreases |events|
  {
    hide Handle, HandedOut, AskedFor;
    if events != [] {
      var front, e := events[..|events| - 1], events[|events| - 1];
      assert front + [e] == events;
      HandleLast(r, n, front, e);
      var m := HandleAll(r, n, front);
      var end := HandleAll(r, n, events);
      WaitingAreAskedFor(r, n, front);
      BookkeepingHolds(r, n, front);
      HandleKeepsAsking(r, m, e);
      forall h | h in end.orphans.blocks
        ensures AskedFor(r, n, events, end.orphans.blocks[h].block.header.previous)
      {
        var p := end.orphans.blocks[h].block.header.previous;
        if p in end.requests.queued {
          QueuedIsAsked(r, n, events, p);
        } else {
          var g :| g in m.orphans.blocks && m.orphans.blocks[g].block.header.previous == p;
          AskedStays(r, n, front, e, p);
        }
      }
    }
  }

  lemma QueuedIsAsked(r: Rules, n: NodeState, events: seq<Event>, h: Hash)
    requires h in HandleAll(r, n, events).requests.queued
    ensures AskedFor(r, n, events, h)
  {
  }
}

/** The orphan indexes and the request queue agree after every run. */
module OrphanBookkeeping {
  import opened Paqus
  import opened ForkTree
  import opened ChainEngine
  import opened OrphanPool
  import opened Ordering
  import M = Mempool

  /** Every list is a non-empty list of distinct waiting blocks under their own parent. */
  ghost predicate ListsHold(o: Orphans, loose: set<Hash>) {
    forall p :: p in o.children ==>
      && o.children[p] != [] && NoRepeats(o.children[p])
      && forall h :: h in o.children[p] ==>
           h in o.blocks && o.blocks[h].block.header.previous == p && h !in loose
  }

  /** Every waiting block is listed under its parent, except the `loose` ones taken off a list. */
  ghost predicate AllListed(o: Orphans, loose: set<Hash>) {
    forall h :: h in o.blocks ==>
      && o.blocks[h].block.header.hash == h
      && (h !in loose ==>
           var p := o.blocks[h].block.header.previous;
           p in o.children && h in o.children[p])
  }

  ghost predicate Tidy(o: Orphans, loose: set<Hash>) {
    ListsHold(o, loose) && AllListed(o, loose) && |o.blocks| <= MAX_ORPHAN_BLOCKS
  }

  /** Queue, set and retry map name the same hashes, each queued once. */
  ghost predicate Aligned(q: Requests) {
    && NoRepeats(q.queue)
    && q.queued == (set h | h in q.queue)
    && q.retryAt.Keys == q.queued
  }

  ghost predicate Kept(n: NodeState) {
    Tidy(n.orphans, {}) && Aligned(n.requests)
  }

  // ---- Removal ----

  lemma {:induction false} WithoutDrops(hashes: seq<Hash>, h: Hash)
    ensures forall k :: k in Without(hashes, h) <==> k in hashes && k != h
    ensures NoRepeats(hashes) ==> NoRepeats(Without(hashes, h))
  {
    if hashes != [] {
      WithoutDrops(hashes[1..], h);
      assert hashes == [hashes[0]] + hashes[1..];
      if NoRepeats(hashes) {
        assert NoRepeats(hashes[1..]);
        assert hashes[0] !in hashes[1..];
      }
    }
  }

  /** A removed block is in no list; every other listing stays, and no list is empty. */
  lemma UnlistExact(children: map<Hash, seq<Hash>>, h: Hash)
    ensures forall p :: p in Unlist(children, h) ==> Unlist(children, h)[p] != []
    ensures forall p, k :: ListedUnder(Unlist(children, h), p, k) <==> k != h && ListedUnder(children, p, k)
  {
    forall p, k ensures ListedUnder(Unlist(children, h), p, k) <==> k != h && ListedUnder(children, p, k) {
      if p in children { WithoutDrops(children[p], h); }
    }
  }

  predicate ListedUnder(children: map<Hash, seq<Hash>>, parent: Hash, h: Hash) {
    parent in children && h in children[parent]
  }

  lemma RemoveKeepsLists(o: Orphans, h: Hash, loose: set<Hash>)
    requires ListsHold(o, loose)
    ensures ListsHold(RemoveOrphan(o, h), loose)
  {
    var o' := RemoveOrphan(o, h);
    forall p | p in o'.children
      ensures o'.children[p] != [] && NoRepeats(o'.children[p])
      ensures forall k :: k in o'.children[p] ==>
        k in o'.blocks && o'.blocks[k].block.header.previous == p && k !in loose
    {
      WithoutDrops(o.children[p], h);
    }
  }

  lemma RemoveKeepsListed(o: Orphans, h: Hash, loose: set<Hash>)
    requires AllListed(o, loose)
    ensures AllListed(RemoveOrphan(o, h), loose)
  {
    var o' := RemoveOrphan(o, h);
    forall k | k in o'.blocks && k !in loose
      ensures
        var p := o'.blocks[k].block.header.previous;
        p in o'.children && k in o'.children[p]
    {
      var p := o.blocks[k].block.header.previous;
      WithoutDrops(o.children[p], h);
      assert k in Without(o.children[p], h);
    }
  }

  lemma RemoveKeepsTidy(o: Orphans, h: Hash, loose: set<Hash>)
    requires Tidy(o, loose)
    ensures Tidy(RemoveOrphan(o, h), loose)
  {
    RemoveKeepsLists(o, h, loose);
    RemoveKeepsListed(o, h, loose);
    SubsetSize(RemoveOrphan(o, h).blocks.Keys, o.blocks.Keys);
    hide ListsHold, AllListed, Unlist;
  }

  lemma {:induction false} RemovalsKeepTidy(o: Orphans, hashes: seq<Hash>, loose: set<Hash>)
    requires Tidy(o, loose)
    ensures Tidy(RemoveOrphans(o, hashes), loose)
    ensures RemoveOrphans(o, hashes).blocks.Keys <= o.blocks.Keys
    decreases |hashes|
  {
    hide Tidy, Unlist;
    if hashes != [] {
      RemoveKeepsTidy(o, hashes[0], loose);
      RemovalsKeepTidy(RemoveOrphan(o, hashes[0]), hashes[1..], loose);
    }
  }

  lemma {:induction false} RemoveOrphansExact(o: Orphans, hashes: seq<Hash>)
    ensures RemoveOrphans(o, hashes).blocks == o.blocks - (set h | h in hashes)
    decreases |hashes|
  {
    hide Unlist;
    if hashes != [] {
      RemoveOrphansExact(RemoveOrphan(o, hashes[0]), hashes[1..]);
      assert hashes == [hashes[0]] + hashes[1..];
    }
  }

  lemma StaleListed(l: Ledger, o: Orphans, now: nat)
    ensures forall h :: h in StaleHashes(l, o, now) <==> h in o.blocks && Stale(l, o.blocks[h], now)
  {
    hide Stale, Sorted;
    var keys, order := StaleKeys(l, o, now), Sorted(StaleKeys(l, o, now));
    SortedIsAscending(keys);
    forall h ensures h in StaleHashes(l, o, now) <==> h in o.blocks && Stale(l, o.blocks[h], now) {
      if h in StaleHashes(l, o, now) {
        var i :| 0 <= i < |order| && order[i].c == h;
        assert order[i] in keys;
      }
      if h in o.blocks && Stale(l, o.blocks[h], now) {
        assert Key(h, 0, h) in order;
        var i :| 0 <= i < |order| && order[i] == Key(h, 0, h);
        assert StaleHashes(l, o, now)[i] == h;
      }
    }
  }

  /** Pruning removes exactly the stale blocks. */
  lemma PruneExact(n: NodeState, now: nat)
    ensures PruneOrphans(n, now).orphans.blocks ==
      map h | h in n.orphans.blocks && !Stale(n.core.ledger, n.orphans.blocks[h], now) :: n.orphans.blocks[h]
  {
    hide Stale, RemoveOrphans, StaleHashes;
    StaleListed(n.core.ledger, n.orphans, now);
    RemoveOrphansExact(n.orphans, StaleHashes(n.core.ledger, n.orphans, now));
  }

  lemma PruneKeepsTidy(n: NodeState, now: nat, loose: set<Hash>)
    requires Tidy(n.orphans, loose)
    ensures Tidy(PruneOrphans(n, now).orphans, loose)
    ensures PruneOrphans(n, now).orphans.blocks.Keys <= n.orphans.blocks.Keys
  {
    RemovalsKeepTidy(n.orphans, StaleHashes(n.core.ledger, n.orphans, now), loose);
  }

  // ---- Caching ----

  lemma AddKeepsTidy(o: Orphans, b: Block, now: nat, loose: set<Hash>)
    requires Tidy(o, loose) && b.header.hash !in o.blocks && b.header.hash !in loose
    requires |o.blocks| < MAX_ORPHAN_BLOCKS
    ensures Tidy(AddOrphan(o, b, now), loose)
  {
    hide ListsHold, AllListed;
    assert AddOrphan(o, b, now).blocks.Keys == o.blocks.Keys + {b.header.hash};
    AddKeepsLists(o, b, now, loose);
    AddKeepsListed(o, b, now, loose);
  }

  lemma AddKeepsLists(o: Orphans, b: Block, now: nat, loose: set<Hash>)
    requires ListsHold(o, loose) && b.header.hash !in o.blocks && b.header.hash !in loose
    ensures ListsHold(AddOrphan(o, b, now), loose)
  {
    var o' := AddOrphan(o, b, now);
    var p, kids := b.header.previous, if b.header.previous in o.children then o.children[b.header.previous] else [];
    assert b.header.hash !in kids;
    assert NoRepeats(kids + [b.header.hash]);
    forall q | q in o'.children
      ensures o'.children[q] != [] && NoRepeats(o'.children[q])
      ensures forall h :: h in o'.children[q] ==>
        h in o'.blocks && o'.blocks[h].block.header.previous == q && h !in loose
    {
      assert q != p ==> o'.children[q] == o.children[q];
      assert q == p ==> o'.children[q] == kids + [b.header.hash];
    }
  }

  lemma AddKeepsListed(o: Orphans, b: Block, now: nat, loose: set<Hash>)
    requires AllListed(o, loose) && b.header.hash !in o.blocks
    ensures AllListed(AddOrphan(o, b, now), loose)
  {
  }

  lemma MakeRoomKeepsTidy(o: Orphans, loose: set<Hash>)
    requires Tidy(o, loose)
    ensures Tidy(MakeRoom(o), loose) && |MakeRoom(o).blocks| < MAX_ORPHAN_BLOCKS
    ensures MakeRoom(o).blocks.Keys <= o.blocks.Keys
  {
    if |o.blocks| >= MAX_ORPHAN_BLOCKS {
      var h := LowestHash(o.blocks);
      RemoveKeepsTidy(o, h, loose);
      assert RemoveOrphan(o, h).blocks.Keys == o.blocks.Keys - {h};
    }
  }

  lemma QueueKeepsAligned(t: Tree, q: Requests, h: Hash, at: nat)
    requires Aligned(q)
    ensures Aligned(QueueAt(t, q, h, at))
  {
  }

  lemma CacheKeepsTidy(n: NodeState, b: Block, now: nat, loose: set<Hash>)
    requires Tidy(n.orphans, loose) && b.header.hash !in loose && Aligned(n.requests)
    ensures Tidy(CacheOrphan(n, b, now).orphans, loose) && Aligned(CacheOrphan(n, b, now).requests)
  {
    hide Tidy, Aligned, PruneOrphans, MakeRoom, AddOrphan, QueueAt;
    PruneKeepsTidy(n, now, loose);
    var p := PruneOrphans(n, now);
    assert p.requests == n.requests by { PruneTouchesOrphans(n, now); }
    MakeRoomKeepsTidy(p.orphans, loose);
    QueueKeepsAligned(p.core.tree, p.requests, b.header.previous, now);
    if b.header.hash !in p.orphans.blocks {
      AddKeepsTidy(MakeRoom(p.orphans), b, now, loose);
    }
  }

  lemma PruneTouchesOrphans(n: NodeState, now: nat)
    ensures PruneOrphans(n, now) == n.(orphans := PruneOrphans(n, now).orphans)
  {
  }

  // ---- Reconnecting ----

  lemma TakeKeepsTidy(o: Orphans, h: Hash, loose: set<Hash>)
    requires Tidy(o, loose) && h in loose
    ensures Tidy(o.(blocks := o.blocks - {h}), loose - {h})
  {
    SubsetSize((o.blocks - {h}).Keys, o.blocks.Keys);
  }

  function Rest(kids: seq<Hash>): set<Hash> {
    set h | h in kids
  }

  lemma {:induction false} ReconnectKeepsKept(r: Rules, n: NodeState, kids: seq<Hash>, parents: seq<Hash>, now: nat)
    requires Tidy(n.orphans, Rest(kids)) && NoRepeats(kids) && Aligned(n.requests)
    ensures Kept(Reconnect(r, n, kids, parents, now).0)
    decreases |kids|
  {
    hide Tidy, Aligned, KnownParent, CacheOrphan;
    if kids == [] {
      assert Rest(kids) == {};
    } else {
      var k, more := kids[0], kids[1..];
      assert NoRepeats(more);
      assert Rest(more) == Rest(kids) - {k} by {
        assert kids == [k] + more;
        assert forall i :: 0 <= i < |more| ==> more[i] == kids[i + 1];
      }
      if k !in n.orphans.blocks {
        LooseMayShrink(n.orphans, Rest(kids), k);
        ReconnectKeepsKept(r, n, more, parents, now);
      } else {
        var child := n.orphans.blocks[k].block;
        assert child.header.hash == k by { ListedHash(n.orphans, Rest(kids), k); }
        var taken := TakeOrphan(n, k);
        TakeKeepsTidy(n.orphans, k, Rest(kids));
        var (core, outcome) := KnownParent(r, taken.core, child, now);
        var next := taken.(core := core);
        CacheKeepsTidy(next, child, now, Rest(more));
        ReconnectKeepsKept(r, CacheOrphan(next, child, now), more, parents, now);
        ReconnectKeepsKept(r, next, more, parents + [k], now);
        ReconnectKeepsKept(r, next, more, parents, now);
      }
    }
  }

  lemma LooseMayShrink(o: Orphans, loose: set<Hash>, h: Hash)
    requires Tidy(o, loose) && h !in o.blocks
    ensures Tidy(o, loose - {h})
  {
  }

  lemma ListedHash(o: Orphans, loose: set<Hash>, h: Hash)
    requires Tidy(o, loose) && h in o.blocks
    ensures o.blocks[h].block.header.hash == h
  {
  }

  lemma DropKeepsTidy(o: Orphans, p: Hash)
    requires Tidy(o, {}) && p in o.children
    ensures Tidy(o.(children := o.children - {p}), Rest(o.children[p])) && NoRepeats(o.children[p])
  {
  }

  lemma {:induction false} ReconnectAllKeepsKept(r: Rules, n: NodeState, parents: seq<Hash>, now: nat)
    requires Kept(n)
    ensures Kept(ReconnectAll(r, n, parents, now))
    decreases 2 * |n.orphans.blocks| + |parents|
  {
    hide Tidy, Aligned, Reconnect;
    if parents != [] {
      var p, rest := parents[|parents| - 1], parents[..|parents| - 1];
      if p !in n.orphans.children {
        ReconnectAllKeepsKept(r, n, rest, now);
      } else {
        DropKeepsTidy(n.orphans, p);
        ReconnectKeepsKept(r, DropList(n, p), n.orphans.children[p], rest, now);
        var (next, more) := Reconnect(r, DropList(n, p), n.orphans.children[p], rest, now);
        ReconnectAllKeepsKept(r, next, more, now);
      }
    }
  }

  // ---- Draining ----

  lemma {:induction false} KeepFilters(hashes: seq<Hash>, kept: set<Hash>)
    ensures forall h :: h in Keep(hashes, kept) <==> h in hashes && h in kept
    ensures NoRepeats(hashes) ==> NoRepeats(Keep(hashes, kept))
  {
    if hashes != [] {
      var front, last := hashes[..|hashes| - 1], hashes[|hashes| - 1];
      KeepFilters(front, kept);
      assert hashes == front + [last];
      if NoRepeats(hashes) {
        assert NoRepeats(front) && last !in front;
      }
    }
  }

  /** A drain hands out exactly the due hashes and keeps the three structures aligned. */
  lemma DrainKeepsAligned(q: Requests, now: nat)
    requires Aligned(q)
    ensures Aligned(Drain(q, now).0) && NoRepeats(Drain(q, now).1)
    ensures forall h :: h in Drain(q, now).1 <==> h in q.queue && q.retryAt[h] <= now
    ensures forall h :: h in Drain(q, now).0.queue <==> h in q.queue && q.retryAt[h] > now
  {
    var due := DueHashes(q, now);
    KeepFilters(q.queue, due);
    KeepFilters(q.queue, (set h | h in q.queue) - due);
  }

  /** In `sub` things stand in the order they have in `q`. */
  ghost predicate InOrderOf(sub: seq<Hash>, q: seq<Hash>) {
    forall i, j, a, b ::
      0 <= i < j < |sub| && 0 <= a < |q| && 0 <= b < |q| && q[a] == sub[i] && q[b] == sub[j] ==> a < b
  }

  lemma {:induction false} KeepInOrder(hashes: seq<Hash>, kept: set<Hash>)
    requires NoRepeats(hashes)
    ensures InOrderOf(Keep(hashes, kept), hashes)
  {
    if hashes != [] {
      var front, last := hashes[..|hashes| - 1], hashes[|hashes| - 1];
      assert NoRepeats(front);
      KeepInOrder(front, kept);
      KeepFilters(front, kept);
      var sub, before := Keep(hashes, kept), Keep(front, kept);
      forall i, j, a, b |
        0 <= i < j < |sub| && 0 <= a < |hashes| && 0 <= b < |hashes| && hashes[a] == sub[i] && hashes[b] == sub[j]
        ensures a < b
      {
        assert sub[i] == before[i] && before[i] in front;
        var k :| 0 <= k < |front| && front[k] == before[i];
        assert hashes[k] == hashes[a];
        if j < |before| {
          assert before[j] in front;
          var m :| 0 <= m < |front| && front[m] == before[j];
          assert hashes[m] == hashes[b];
          assert front[a] == before[i] && front[b] == before[j];
        }
      }
    }
  }

  /** A drain keeps the order of the queue, in what it hands out and in what it leaves. */
  lemma DrainInOrder(q: Requests, now: nat)
    requires Aligned(q)
    ensures InOrderOf(Drain(q, now).1, q.queue) && InOrderOf(Drain(q, now).0.queue, q.queue)
  {
    hide InOrderOf;
    KeepInOrder(q.queue, DueHashes(q, now));
    KeepInOrder(q.queue, (set h | h in q.queue) - DueHashes(q, now));
  }

  // ---- Every run ----

  datatype Event =
    | Deliver(block: Block, at: nat)
    | DrainRequests(at: nat)
    | RetryParent(hash: Hash, at: nat)
    | Submit(tx: Tx, at: nat)
    | ExpirePool(at: nat)

  function Handle(r: Rules, n: NodeState, e: Event): NodeState {
    match e
    case Deliver(b, at) => ApplyBlock(r, n, b, at).0
    case DrainRequests(at) => n.(requests := Drain(n.requests, at).0)
    case RetryParent(h, at) => RetryRequest(n, h, at)
    case Submit(tx, at) => WithPool(n, M.Insert(r, n.core.pool, n.core.ledger, tx, at).0)
    case ExpirePool(at) => WithPool(n, M.Expire(n.core.pool, at))
  }

  function WithPool(n: NodeState, pool: M.Pool): NodeState {
    n.(core := n.core.(pool := pool))
  }

  function HandleAll(r: Rules, n: NodeState, events: seq<Event>): NodeState
    decreases |events|
  {
    if events == [] then n else HandleAll(r, Handle(r, n, events[0]), events[1..])
  }

  lemma ApplyKeepsKept(r: Rules, n: NodeState, b: Block, now: nat)
    requires Kept(n)
    ensures Kept(ApplyBlock(r, n, b, now).0)
  {
    hide Tidy, Aligned, KnownParent, CacheOrphan, PruneOrphans, ReconnectAll;
    PruneTouchesOrphans(n, now);
    PruneKeepsTidy(n, now, {});
    var p := PruneOrphans(n, now);
    var (core, outcome) := KnownParent(r, p.core, b, now);
    var next := p.(core := core);
    CacheKeepsTidy(next, b, now, {});
    PruneTouchesOrphans(next, now);
    PruneKeepsTidy(next, now, {});
    ReconnectAllKeepsKept(r, PruneOrphans(next, now), [b.header.hash], now);
  }

  /** Whatever arrives and whenever, each orphan is listed exactly once under its own parent, no
      list is empty or dangling, at most 1024 orphans wait, and the request structures agree. */
  lemma {:induction false} BookkeepingHolds(r: Rules, n: NodeState, events: seq<Event>)
    requires Kept(n)
    ensures Kept(HandleAll(r, n, events))
    decreases |events|
  {
    if events != [] {
      match events[0] {
        case Deliver(b, at) => ApplyKeepsKept(r, n, b, at);
        case DrainRequests(at) => DrainKeepsAligned(n.requests, at);
        case RetryParent(h, at) =>
          QueueKeepsAligned(n.core.tree, n.requests, h, SaturatingAdd(at, MISSING_PARENT_RETRY_SECS));
        case Submit(_, _) =>
        case ExpirePool(_) =>
      }
      BookkeepingHolds(r, Handle(r, n, events[0]), events[1..]);
    }
    hide Kept, ApplyBlock;
  }
}

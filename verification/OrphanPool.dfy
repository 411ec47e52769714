/** Blocks waiting for their parents, and the queue of parents to ask for. */
module OrphanPool {
  import opened Paqus
  import opened Ordering
  import opened ForkTree
  import opened ChainEngine

  const MAX_ORPHAN_BLOCKS: nat := 1024
  const MAX_ORPHAN_HEIGHT_DISTANCE: nat := 512
  const ORPHAN_BLOCK_TTL_SECS: nat := 600
  const MISSING_PARENT_RETRY_SECS: nat := 5

  datatype Orphan = Orphan(block: Block, receivedAt: nat)

  datatype Orphans = Orphans(blocks: map<Hash, Orphan>, children: map<Hash, seq<Hash>>)

  datatype Requests = Requests(queue: seq<Hash>, queued: set<Hash>, retryAt: map<Hash, nat>)

  datatype NodeState = NodeState(core: Core, orphans: Orphans, requests: Requests, failures: nat)

  // ---- Removing orphans ----

  function Without(hashes: seq<Hash>, h: Hash): seq<Hash> {
    if hashes == [] then []
    else (if hashes[0] == h then [] else [hashes[0]]) + Without(hashes[1..], h)
  }

  /** Strikes `h` from every list and drops the lists left empty. */
  function Unlist(children: map<Hash, seq<Hash>>, h: Hash): map<Hash, seq<Hash>> {
    map p | p in children && Without(children[p], h) != [] :: Without(children[p], h)
  }

  function RemoveOrphan(o: Orphans, h: Hash): Orphans {
    Orphans(o.blocks - {h}, Unlist(o.children, h))
  }

  function RemoveOrphans(o: Orphans, hashes: seq<Hash>): Orphans
    decreases |hashes|
  {
    if hashes == [] then o else RemoveOrphans(RemoveOrphan(o, hashes[0]), hashes[1..])
  }

  function TipHeight(l: Ledger): nat {
    if l.chain == [] then 0 else |l.chain| - 1
  }

  predicate TooFarAhead(l: Ledger, b: Block) {
    b.header.height > SaturatingAdd(TipHeight(l), MAX_ORPHAN_HEIGHT_DISTANCE)
  }

  predicate Stale(l: Ledger, orphan: Orphan, now: nat) {
    SaturatingSub(now, orphan.receivedAt) > ORPHAN_BLOCK_TTL_SECS || TooFarAhead(l, orphan.block)
  }

  function StaleKeys(l: Ledger, o: Orphans, now: nat): set<Key> {
    set h | h in o.blocks && Stale(l, o.blocks[h], now) :: Key(h, 0, h)
  }

  function StaleHashes(l: Ledger, o: Orphans, now: nat): seq<Hash> {
    var keys := Sorted(StaleKeys(l, o, now));
    seq(|keys|, i requires 0 <= i < |keys| => keys[i].c)
  }

  function PruneOrphans(n: NodeState, now: nat): NodeState {
    n.(orphans := RemoveOrphans(n.orphans, StaleHashes(n.core.ledger, n.orphans, now)))
  }

  // ---- Asking for parents ----

  function QueueAt(t: Tree, q: Requests, h: Hash, at: nat): Requests {
    if h in t then q else
    Requests(
      if h in q.queued then q.queue else q.queue + [h],
      q.queued + {h},
      q.retryAt[h := if h in q.retryAt then Min(q.retryAt[h], at) else at])
  }

  function RetryRequest(n: NodeState, h: Hash, now: nat): NodeState {
    n.(requests := QueueAt(n.core.tree, n.requests, h, SaturatingAdd(now, MISSING_PARENT_RETRY_SECS)))
  }

  /** The elements of `hashes` that lie in `kept`, in order. */
  function Keep(hashes: seq<Hash>, kept: set<Hash>): seq<Hash> {
    if hashes == [] then []
    else
      Keep(hashes[..|hashes| - 1], kept) +
      (if hashes[|hashes| - 1] in kept then [hashes[|hashes| - 1]] else [])
  }

  function DueHashes(q: Requests, now: nat): set<Hash> {
    set h | h in q.queue && (h !in q.retryAt || q.retryAt[h] <= now)
  }

  /** The due requests leave the queue; the others stay, and both keep their order. */
  function Drain(q: Requests, now: nat): (Requests, seq<Hash>) {
    var due := DueHashes(q, now);
    (Requests(Keep(q.queue, (set h | h in q.queue) - due), q.queued - due, q.retryAt - due),
     Keep(q.queue, due))
  }

  // ---- Caching ----

  function LowestHash(blocks: map<Hash, Orphan>): (h: Hash)
    requires blocks != map[]
    ensures h in blocks
  {
    assert exists h :: h in blocks;
    LowestExists(blocks.Keys);
    var h :| h in blocks && IsLowest(blocks.Keys, h);
    h
  }

  predicate IsLowest(s: set<Hash>, h: Hash) {
    h in s && forall k :: k in s ==> h <= k
  }

  lemma LowestExists(s: set<Hash>)
    requires s != {}
    ensures exists h :: IsLowest(s, h)
  {
    var h :| h in s;
    var rest := s - {h};
    assert forall k :: k in s ==> k == h || k in rest;
    if rest == {} {
      assert IsLowest(s, h);
    } else {
      LowestExists(rest);
      var m :| IsLowest(rest, m);
      assert IsLowest(s, if h < m then h else m);
    }
  }

  function AddOrphan(o: Orphans, b: Block, now: nat): Orphans {
    var p := b.header.previous;
    Orphans(o.blocks[b.header.hash := Orphan(b, now)],
            o.children[p := (if p in o.children then o.children[p] else []) + [b.header.hash]])
  }

  function MakeRoom(o: Orphans): Orphans {
    if |o.blocks| >= MAX_ORPHAN_BLOCKS && o.blocks != map[] then RemoveOrphan(o, LowestHash(o.blocks)) else o
  }

  function CacheOrphan(n: NodeState, b: Block, now: nat): NodeState {
    var p := PruneOrphans(n, now);
    if b.header.height == 0 || TooFarAhead(p.core.ledger, b)
      || b.header.hash in p.core.tree || b.header.hash in p.orphans.blocks then p
    else
      p.(requests := QueueAt(p.core.tree, p.requests, b.header.previous, now),
         orphans := AddOrphan(MakeRoom(p.orphans), b, now))
  }

  // ---- Reconnecting ----

  lemma {:induction false} RemovalShrinks(o: Orphans, hashes: seq<Hash>)
    ensures |RemoveOrphans(o, hashes).blocks| <= |o.blocks|
    decreases |hashes|
  {
    if hashes != [] {
      SubsetSize(RemoveOrphan(o, hashes[0]).blocks.Keys, o.blocks.Keys);
      RemovalShrinks(RemoveOrphan(o, hashes[0]), hashes[1..]);
    }
  }

  lemma {:induction false} SubsetSize(a: set<Hash>, b: set<Hash>)
    requires a <= b
    ensures |a| <= |b|
  {
    if a != {} {
      var x :| x in a;
      SubsetSize(a - {x}, b - {x});
    }
  }

  lemma CacheAddsOne(n: NodeState, b: Block, now: nat)
    ensures |CacheOrphan(n, b, now).orphans.blocks| <= |n.orphans.blocks| + 1
  {
    var p := PruneOrphans(n, now);
    RemovalShrinks(n.orphans, StaleHashes(n.core.ledger, n.orphans, now));
    var m := MakeRoom(p.orphans);
    SubsetSize(m.blocks.Keys, p.orphans.blocks.Keys);
    assert AddOrphan(m, b, now).blocks.Keys == m.blocks.Keys + {b.header.hash};
    hide StaleHashes, RemoveOrphans, MakeRoom, QueueAt, Unlist;
  }

  function TakeOrphan(n: NodeState, h: Hash): NodeState {
    n.(orphans := n.orphans.(blocks := n.orphans.blocks - {h}))
  }

  /** Applies the listed orphans; each that connects becomes a parent to look at next. */
  function Reconnect(r: Rules, n: NodeState, kids: seq<Hash>, parents: seq<Hash>, now: nat)
    : (result: (NodeState, seq<Hash>))
    ensures 2 * |result.0.orphans.blocks| + |result.1| <= 2 * |n.orphans.blocks| + |parents|
    decreases |kids|
  {
    if kids == [] then (n, parents)
    else if kids[0] !in n.orphans.blocks then Reconnect(r, n, kids[1..], parents, now)
    else
      var child := n.orphans.blocks[kids[0]].block;
      var taken := TakeOrphan(n, kids[0]);
      var (core, outcome) := KnownParent(r, taken.core, child, now);
      var next := taken.(core := core);
      if outcome.Done? then Reconnect(r, next, kids[1..], parents + [kids[0]], now)
      else if outcome == Failed(ForkChoiceError(MissingParent)) then
        CacheAddsOne(next, child, now);
        Reconnect(r, CacheOrphan(next, child, now), kids[1..], parents, now)
      else Reconnect(r, next, kids[1..], parents, now)
  }

  function DropList(n: NodeState, p: Hash): NodeState {
    n.(orphans := n.orphans.(children := n.orphans.children - {p}))
  }

  /** The worklist loop. It ends although it may cache blocks again: twice the orphans plus the
      parents still to look at keeps falling. */
  function ReconnectAll(r: Rules, n: NodeState, parents: seq<Hash>, now: nat): NodeState
    decreases 2 * |n.orphans.blocks| + |parents|
  {
    if parents == [] then n else
    var p, rest := parents[|parents| - 1], parents[..|parents| - 1];
    if p !in n.orphans.children then ReconnectAll(r, n, rest, now) else
    var (next, more) := Reconnect(r, DropList(n, p), n.orphans.children[p], rest, now);
    ReconnectAll(r, next, more, now)
  }

  function ProcessOrphans(r: Rules, n: NodeState, parent: Hash, now: nat): NodeState {
    ReconnectAll(r, PruneOrphans(n, now), [parent], now)
  }

  /** `apply_block`. */
  function ApplyBlock(r: Rules, n: NodeState, b: Block, now: nat): (NodeState, Outcome) {
    var p := PruneOrphans(n, now);
    var (core, outcome) := KnownParent(r, p.core, b, now);
    var next := p.(core := core);
    match outcome
    case Done => (ProcessOrphans(r, next, b.header.hash, now), Done)
    case Failed(error) =>
      if error == ForkChoiceError(MissingParent) then (CacheOrphan(next, b, now), Done)
      else if error == ForkChoiceError(DuplicateBlock) || error == LedgerFailure(AlreadyApplied) then (next, Done)
      else (next.(failures := Min(next.failures + 1, U64_MAX)), outcome)
  }
}

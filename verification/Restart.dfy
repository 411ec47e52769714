/** Restarting a node: the stored blocks are indexed on top of the stored chain, and fork choice
    comes back. */
module Restart {
  import opened Paqus
  import opened Ordering
  import opened ForkTree
  import opened CoreCache
  import opened ChainEngine
  import opened ChainSafety
  import opened Startup
  import M = Mempool

  // ---- Indexing stored blocks ----

  function StoredKeys(blocks: map<Hash, Block>): set<Key> {
    set h | h in blocks :: Key(blocks[h].header.height, 0, h)
  }

  /** The stored blocks by height, and by hash among those of one height. */
  function StoredBlocks(blocks: map<Hash, Block>): seq<Block> {
    var keys := Sorted(StoredKeys(blocks));
    SortedIsAscending(StoredKeys(blocks));
    seq(|keys|, i requires 0 <= i < |keys| => assert keys[i] in StoredKeys(blocks); blocks[keys[i].c])
  }

  lemma StoredBlocksAreAll(blocks: map<Hash, Block>)
    ensures forall b :: b in StoredBlocks(blocks) <==> exists h :: h in blocks && blocks[h] == b
  {
    var keys, q := Sorted(StoredKeys(blocks)), StoredBlocks(blocks);
    SortedIsAscending(StoredKeys(blocks));
    forall h | h in blocks ensures blocks[h] in q {
      var k := Key(blocks[h].header.height, 0, h);
      assert k in keys;
      var i :| 0 <= i < |keys| && keys[i] == k;
      assert q[i] == blocks[h];
    }
    forall b | b in q ensures exists h :: h in blocks && blocks[h] == b {
      var i :| 0 <= i < |q| && q[i] == b;
      assert keys[i] in StoredKeys(blocks);
    }
  }

  /** One pass over the blocks: those already known are dropped, those whose parent is known are
      inserted, and the others remain for the next pass. */
  function Pass(t: Tree, blocks: seq<Block>): (result: (Tree, seq<Block>))
    ensures |result.1| <= |blocks|
  {
    if blocks == [] then (t, []) else
    var (u, rest) := Pass(t, blocks[..|blocks| - 1]);
    Try(u, rest, blocks[|blocks| - 1])
  }

  function Try(t: Tree, rest: seq<Block>, b: Block): (Tree, seq<Block>) {
    if b.header.hash in t then (t, rest) else
    match Insert(t, b)
    case Ok(u) => (u, rest)
    case Err(_) => (t, rest + [b])
  }

  /** Passes until one changes nothing. */
  function IndexAll(t: Tree, blocks: seq<Block>): Tree
    decreases |blocks|
  {
    var (u, rest) := Pass(t, blocks);
    if |rest| < |blocks| then IndexAll(u, rest) else u
  }

  /** Every block of `blocks` that is a root or whose parent lies in `c` lies in `c` itself. */
  ghost predicate Closed(blocks: seq<Block>, c: set<Hash>) {
    forall b :: b in blocks && (b.header.height == 0 || b.header.previous in c) ==> b.header.hash in c
  }

  /** `u` is `t` with some of `blocks` added, and nothing more than connects to `t` through them. */
  ghost predicate Added(t: Tree, blocks: seq<Block>, u: Tree) {
    && Within(t, u)
    && (forall h :: h in u && h !in t ==> u[h].block in blocks && u[h].block.header.hash == h)
    && (forall c: set<Hash> :: t.Keys <= c && Closed(blocks, c) ==> u.Keys <= c)
  }

  /** What a pass leaves over: blocks of the list, and all that did not make it into the tree. */
  ghost predicate Leaves(blocks: seq<Block>, u: Tree, rest: seq<Block>) {
    && (forall b :: b in rest ==> b in blocks)
    && (forall b :: b in blocks ==> b.header.hash in u || b in rest)
  }

  lemma {:induction false} PassAdds(t: Tree, blocks: seq<Block>)
    ensures var (u, rest) := Pass(t, blocks); Added(t, blocks, u) && Leaves(blocks, u, rest)
  {
    hide Added, Leaves;
    if blocks == [] {
      NothingAdded(t);
    } else {
      var front, b := blocks[..|blocks| - 1], blocks[|blocks| - 1];
      PassAdds(t, front);
      var (u, rest) := Pass(t, front);
      TryAdds(t, front, u, rest, b);
      assert front + [b] == blocks;
    }
  }

  lemma NothingAdded(t: Tree)
    ensures Added(t, [], t) && Leaves([], t, [])
  {
  }

  lemma TryAdds(t: Tree, front: seq<Block>, u: Tree, rest: seq<Block>, b: Block)
    requires Added(t, front, u) && Leaves(front, u, rest)
    ensures var (u', rest') := Try(u, rest, b); Added(t, front + [b], u') && Leaves(front + [b], u', rest')
  {
    var (u', rest') := Try(u, rest, b);
    var all := front + [b];
    assert b in all && forall x :: x in all <==> x in front || x == b;
    forall c: set<Hash> | t.Keys <= c && Closed(all, c) ensures u'.Keys <= c {
      assert Closed(front, c);
      assert u.Keys <= c;
    }
  }

  /** A pass that leaves every block over found each of them without its parent. */
  lemma {:induction false} IdlePass(t: Tree, blocks: seq<Block>)
    requires |Pass(t, blocks).1| == |blocks|
    ensures Pass(t, blocks) == (t, blocks)
    ensures forall b :: b in blocks ==> b.header.height != 0 && b.header.previous !in t
  {
    if blocks != [] {
      IdlePass(t, blocks[..|blocks| - 1]);
      assert blocks[..|blocks| - 1] + [blocks[|blocks| - 1]] == blocks;
    }
  }

  lemma AddedTwice(t: Tree, blocks: seq<Block>, u: Tree, rest: seq<Block>, v: Tree)
    requires Added(t, blocks, u) && Leaves(blocks, u, rest) && Added(u, rest, v)
    ensures Added(t, blocks, v)
  {
    forall c: set<Hash> | t.Keys <= c && Closed(blocks, c) ensures v.Keys <= c {
      assert Closed(rest, c);
      assert u.Keys <= c;
    }
  }

  /** The loop ends with the parent-connected closure of the stored blocks: whatever connects is in,
      and nothing is in that a smaller closed set would leave out. */
  lemma {:induction false} IndexIsClosure(t: Tree, blocks: seq<Block>)
    ensures Added(t, blocks, IndexAll(t, blocks)) && Closed(blocks, IndexAll(t, blocks).Keys)
    decreases |blocks|
  {
    hide Pass, Added, Leaves, Closed;
    var (u, rest) := Pass(t, blocks);
    PassAdds(t, blocks);
    if |rest| < |blocks| {
      IndexIsClosure(u, rest);
      AddedTwice(t, blocks, u, rest, IndexAll(u, rest));
      RestClosed(u, blocks, rest, IndexAll(u, rest));
    } else {
      IdlePass(t, blocks);
      IdleClosed(t, blocks);
    }
  }

  lemma RestClosed(u: Tree, blocks: seq<Block>, rest: seq<Block>, v: Tree)
    requires Leaves(blocks, u, rest) && Added(u, rest, v) && Closed(rest, v.Keys)
    ensures Closed(blocks, v.Keys)
  {
  }

  lemma IdleClosed(t: Tree, blocks: seq<Block>)
    requires forall b :: b in blocks ==> b.header.height != 0 && b.header.previous !in t
    ensures Closed(blocks, t.Keys)
  {
  }

  // ---- What the disk keeps ----

  predicate OnShelf(r: Rules, blocks: map<Hash, Block>, h: Hash)
    requires h in blocks
  {
    var b := blocks[h].header;
    && b.hash == h
    && if b.height == 0 then h == r.genesisHash else
         b.previous in blocks && b.height == blocks[b.previous].header.height + 1
  }

  ghost predicate AllOnShelf(r: Rules, blocks: map<Hash, Block>) {
    forall h :: h in blocks ==> OnShelf(r, blocks, h)
  }

  /** Everything in fork choice is on disk, and with every block its parent. */
  ghost predicate Shelved(r: Rules, s: Core) {
    && (forall h :: h in s.tree ==> h in s.disk.blocks && s.disk.blocks[h] == s.tree[h].block)
    && AllOnShelf(r, s.disk.blocks)
  }

  // ---- Rebuilding fork choice ----

  /** A rooted, well-formed tree of blocks from the shelf. */
  ghost predicate Drawn(r: Rules, blocks: map<Hash, Block>, t: Tree) {
    && WellFormed(t) && r.genesisHash in t
    && forall h :: h in t ==> h in blocks && t[h].block == blocks[h]
  }

  ghost predicate FromShelf(blocks: map<Hash, Block>, q: seq<Block>) {
    forall b :: b in q ==> b.header.hash in blocks && blocks[b.header.hash] == b
  }

  lemma TryDraws(r: Rules, blocks: map<Hash, Block>, t: Tree, rest: seq<Block>, b: Block)
    requires AllOnShelf(r, blocks) && Drawn(r, blocks, t)
    requires b.header.hash in blocks && blocks[b.header.hash] == b
    ensures Drawn(r, blocks, Try(t, rest, b).0)
  {
    hide WellFormed, ChainTo;
    assert OnShelf(r, blocks, b.header.hash);
    if b.header.hash !in t && Insert(t, b).Ok? {
      InsertGrows(t, b, Insert(t, b).value);
    }
  }

  lemma {:induction false} PassDraws(r: Rules, blocks: map<Hash, Block>, t: Tree, q: seq<Block>)
    requires AllOnShelf(r, blocks) && Drawn(r, blocks, t) && FromShelf(blocks, q)
    ensures Drawn(r, blocks, Pass(t, q).0)
  {
    hide Drawn, AllOnShelf, Try;
    if q != [] {
      PassDraws(r, blocks, t, q[..|q| - 1]);
      var (u, rest) := Pass(t, q[..|q| - 1]);
      TryDraws(r, blocks, u, rest, q[|q| - 1]);
    }
  }

  lemma {:induction false} IndexDraws(r: Rules, blocks: map<Hash, Block>, t: Tree, q: seq<Block>)
    requires AllOnShelf(r, blocks) && Drawn(r, blocks, t) && FromShelf(blocks, q)
    ensures Drawn(r, blocks, IndexAll(t, q))
    decreases |q|
  {
    hide Drawn, AllOnShelf, Pass, Added;
    var (u, rest) := Pass(t, q);
    PassDraws(r, blocks, t, q);
    PassAdds(t, q);
    if |rest| < |q| {
      IndexDraws(r, blocks, u, rest);
    }
  }

  lemma StoredFromShelf(r: Rules, blocks: map<Hash, Block>)
    requires AllOnShelf(r, blocks)
    ensures FromShelf(blocks, StoredBlocks(blocks))
  {
    hide StoredBlocks;
    StoredBlocksAreAll(blocks);
    assert forall h :: h in blocks ==> OnShelf(r, blocks, h);
  }

  /** Indexing a shelf brings back every block on it. */
  lemma {:induction false} Connects(r: Rules, blocks: map<Hash, Block>, t: Tree, h: Hash)
    requires AllOnShelf(r, blocks) && Drawn(r, blocks, t) && h in blocks
    ensures h in IndexAll(t, StoredBlocks(blocks))
    decreases blocks[h].header.height
  {
    hide IndexAll, StoredBlocks, WellFormed;
    var q := StoredBlocks(blocks);
    var u := IndexAll(t, q);
    IndexIsClosure(t, q);
    StoredBlocksAreAll(blocks);
    assert blocks[h] in q && OnShelf(r, blocks, h);
    if blocks[h].header.height > 0 {
      Connects(r, blocks, t, blocks[h].header.previous);
    }
  }

  /** Well-formed trees that hold the same blocks give them the same work. */
  lemma {:induction false} SameWork(t: Tree, u: Tree, h: Hash)
    requires WellFormed(t) && WellFormed(u) && h in t
    requires forall k :: k in t ==> k in u && u[k].block == t[k].block
    ensures t[h] == u[h]
    decreases Height(t, h)
  {
    assert Linked(t, h) && Linked(u, h);
    if Height(t, h) > 0 {
      SameWork(t, u, t[h].block.header.previous);
    }
  }

  /** From whatever part of the shelf it starts, indexing ends with all of it. */
  lemma IndexRestoresShelf(r: Rules, blocks: map<Hash, Block>, t: Tree)
    requires AllOnShelf(r, blocks) && Drawn(r, blocks, t)
    ensures
      var u := IndexAll(t, StoredBlocks(blocks));
      Drawn(r, blocks, u) && u.Keys == blocks.Keys && Within(t, u)
  {
    hide IndexAll, StoredBlocks, WellFormed, AllOnShelf;
    StoredFromShelf(r, blocks);
    IndexDraws(r, blocks, t, StoredBlocks(blocks));
    IndexIsClosure(t, StoredBlocks(blocks));
    forall h | h in blocks ensures h in IndexAll(t, StoredBlocks(blocks)) {
      Connects(r, blocks, t, h);
    }
  }

  // ---- Restarting ----

  /** The node as it comes up again from a stored ledger, once the stored blocks are indexed. */
  function Reloaded(l: Ledger, genesis: State, d: Disk, config: M.Config): Core
    requires Grow(l.chain).Ok?
  {
    Core(l, IndexAll(Grow(l.chain).value, StoredBlocks(d.blocks)), FromChain(l.chain), genesis, M.Empty(config), d, 0)
  }

  function Restarted(r: Rules, l: Ledger, genesis: State, d: Disk, config: M.Config): Core
    requires Grow(l.chain).Ok?
  {
    PruneFinalized(r, Reloaded(l, genesis, d, config))
  }

  lemma ActiveIsUpright(r: Rules, s: Core)
    requires Sound(r, s) && s.ledger.chain != []
    ensures Upright(s.ledger.chain)
  {
    hide WellFormed, ChainTo, Faithful;
    var chain, tip := s.ledger.chain, TipHash(s.ledger);
    ChainIsNumbered(s.tree, tip);
    forall i, j | 0 <= i < |chain| && j == i + 1 < |chain|
      ensures chain[j].header.previous == chain[i].header.hash
    {
      ChainLinks(s.tree, tip, j);
    }
  }

  lemma ChainIsDrawn(r: Rules, s: Core)
    requires Sound(r, s) && s.ledger.chain != [] && Shelved(r, s)
    ensures Grow(s.ledger.chain).Ok? && GrownTo(Grow(s.ledger.chain).value, s.ledger.chain)
    ensures Drawn(r, s.disk.blocks, Grow(s.ledger.chain).value)
  {
    hide WellFormed, ChainTo, Faithful, Grow, AllOnShelf;
    var chain := s.ledger.chain;
    ActiveIsUpright(r, s);
    UprightGrows(chain);
    var t := Grow(chain).value;
    ChainShape(t, chain[|chain| - 1].header.hash);
    ChainShape(s.tree, TipHash(s.ledger));
    assert OnChain(chain, r.genesisHash) by {
      assert Height(s.tree, chain[0].header.hash) == 0;
      RootIsFirst(s.tree, r.genesisHash, chain[0].header.hash);
      assert chain[0].header.hash == r.genesisHash;
    }
    forall h | h in t ensures h in s.disk.blocks && t[h].block == s.disk.blocks[h] {
      var i :| 0 <= i < |chain| && chain[i].header.hash == h;
      assert t[chain[i].header.hash].block == chain[i] == s.tree[chain[i].header.hash].block;
    }
  }

  lemma RootIsFirst(t: Tree, a: Hash, b: Hash)
    requires WellFormed(t) && a in t && b in t && Height(t, a) == 0 && Height(t, b) == 0
    ensures a == b
  {
  }

  /** Before pruning, the reloaded node is sound and its fork choice holds the running node's. */
  lemma ReloadIsSound(r: Rules, s: Core, config: M.Config)
    requires Sound(r, s) && s.ledger.chain != [] && Shelved(r, s)
    ensures Grow(s.ledger.chain).Ok?
    ensures
      var n := Reloaded(s.ledger, s.genesis, s.disk, config);
      Sound(r, n) && n.tree.Keys == s.disk.blocks.Keys && Within(s.tree, n.tree)
  {
    hide WellFormed, ChainTo, Replay, Matches, Grow, IndexAll, StoredBlocks, FromChain, OnShelf;
    var chain := s.ledger.chain;
    ChainIsDrawn(r, s);
    var t := Grow(chain).value;
    IndexRestoresShelf(r, s.disk.blocks, t);
    var n := Reloaded(s.ledger, s.genesis, s.disk, config);
    ChainStable(t, n.tree, TipHash(s.ledger));
    ActiveIsUpright(r, s);
    FromChainMatches(chain);
    forall h | h in s.tree ensures h in n.tree && n.tree[h] == s.tree[h] {
      SameWork(s.tree, n.tree, h);
    }
    assert Height(n.tree, r.genesisHash) == 0;
  }

  /** A restart loses nothing that counts: the node comes up sound on the same ledger, with every
      block of its fork choice that is not behind the finality boundary, and otherwise exactly the
      stored blocks that hang on the finalized chain. */
  lemma RestartRestores(r: Rules, s: Core, config: M.Config)
    requires Sound(r, s) && s.ledger.chain != [] && Shelved(r, s)
    ensures Grow(s.ledger.chain).Ok?
    ensures
      var n := Restarted(r, s.ledger, s.genesis, s.disk, config);
      && Sound(r, n) && n.ledger == s.ledger && n.disk == s.disk
      && Within(PruneFinalized(r, s).tree, n.tree)
      && var k := SaturatingSub(|s.ledger.chain| - 1, r.finalityDepth);
      && var all := Reloaded(s.ledger, s.genesis, s.disk, config).tree;
      && forall h :: h in n.tree <==>
           && h in s.disk.blocks
           && (OnChain(s.ledger.chain[..k + 1], h) || OnChain(ChainTo(all, h), s.ledger.chain[k].header.hash))
  {
    hide WellFormed, ChainTo, Replay, Matches, Grow, FromChain, Reloaded, Shelved, OnChain;
    ReloadIsSound(r, s, config);
    var n := Reloaded(s.ledger, s.genesis, s.disk, config);
    assert n.ledger == s.ledger && n.disk == s.disk by { ReloadedParts(s, config); }
    PruneKeepsRooted(r, n);
    PruneExact(r, n);
    PruneExact(r, s);
    PruneKeepsRooted(r, s);
    forall h | h in PruneFinalized(r, s).tree ensures h in PruneFinalized(r, n).tree {
      ChainStable(s.tree, n.tree, h);
    }
  }

  lemma ReloadedParts(s: Core, config: M.Config)
    requires Grow(s.ledger.chain).Ok?
    ensures
      var n := Reloaded(s.ledger, s.genesis, s.disk, config);
      n.ledger == s.ledger && n.disk == s.disk
  {
    hide Grow, IndexAll, StoredBlocks, FromChain;
  }

  // ---- The shelf along a run ----

  /** The block passes its checks and enters fork choice as the best tip, but the node does not move
      to it: the switch would cross the finality boundary or the branch does not replay. */
  ghost predicate Declines(r: Rules, s: Core, b: Block)
    requires s.ledger.chain != []
  {
    && CheckHeader(r, s, b).None? && CheckState(r, s, b).Ok? && TakesOver(s, b)
    && !ExtendsTip(s.ledger, b) && !Switches(r, s, b)
  }

  /** The block's hash does not collide with that of another stored block. */
  predicate NoClash(s: Core, b: Block) {
    b.header.hash in s.disk.blocks ==> s.disk.blocks[b.header.hash] == b
  }

  lemma ShelfGrows(r: Rules, blocks: map<Hash, Block>, b: Block)
    requires AllOnShelf(r, blocks) && b.header.height > 0
    requires b.header.previous in blocks && b.header.height == blocks[b.header.previous].header.height + 1
    requires b.header.hash in blocks ==> blocks[b.header.hash] == b
    ensures AllOnShelf(r, blocks[b.header.hash := b])
  {
    var more := blocks[b.header.hash := b];
    forall h | h in more ensures OnShelf(r, more, h) {
      if h in blocks { assert OnShelf(r, blocks, h); }
    }
  }

  lemma {:induction false} WithHashFound(chain: seq<Block>, h: Hash)
    requires h in BlockHashes(chain)
    ensures BlockWithHash(chain, h) in chain && BlockWithHash(chain, h).header.hash == h
  {
    var last := chain[|chain| - 1];
    if last.header.hash != h {
      var front := chain[..|chain| - 1];
      assert forall i :: 0 <= i < |chain| - 1 ==> front[i] == chain[i];
      WithHashFound(front, h);
    }
  }

  /** Saving a chain of which only `b` can be new adds just `b` to the blocks on disk. */
  lemma SavingAddsOne(d: Disk, l: Ledger, b: Block)
    requires b in l.chain
    requires forall i :: 0 <= i < |l.chain| && l.chain[i] != b ==>
      && l.chain[i].header.hash != b.header.hash
      && l.chain[i].header.hash in d.blocks && d.blocks[l.chain[i].header.hash] == l.chain[i]
    ensures SaveLedger(d, l).blocks == d.blocks[b.header.hash := b]
  {
    var saved, more := SaveLedger(d, l).blocks, d.blocks[b.header.hash := b];
    forall h | h in BlockHashes(l.chain) ensures h in more && saved[h] == more[h] {
      WithHashFound(l.chain, h);
      var x := BlockWithHash(l.chain, h);
      var i :| 0 <= i < |l.chain| && l.chain[i] == x;
      assert l.chain[i].header.hash == h;
    }
    var j :| 0 <= j < |l.chain| && l.chain[j] == b;
    assert b.header.hash in BlockHashes(l.chain);
  }

  /** The grown node with the new block stored. */
  lemma ShelfTakes(r: Rules, s: Core, b: Block, t: Tree)
    requires Lawful(r) && Sound(r, s) && s.ledger.chain != [] && Shelved(r, s) && NoClash(s, b)
    requires CheckHeader(r, s, b).None? && Insert(s.tree, b) == Ok(t)
    ensures Shelved(r, s.(tree := t, disk := s.disk.(blocks := s.disk.blocks[b.header.hash := b])))
  {
    hide WellFormed, ChainTo, Faithful, AllOnShelf, Lawful, CheckHeader, Insert;
    AcceptedGrows(r, s, b, t);
    NextHeight(r, s, b);
    ShelfGrows(r, s.disk.blocks, b);
  }

  lemma NextHeight(r: Rules, s: Core, b: Block)
    requires Lawful(r) && CheckHeader(r, s, b).None? && b.header.height > 0
    ensures b.header.previous in s.tree && b.header.height == Height(s.tree, b.header.previous) + 1
  {
  }

  /** On the branch to a block just inserted, every other block is on disk already. */
  lemma BranchIsStored(r: Rules, s: Core, b: Block, t: Tree, l: Ledger)
    requires Lawful(r) && Sound(r, s) && s.ledger.chain != [] && Shelved(r, s)
    requires CheckHeader(r, s, b).None? && Insert(s.tree, b) == Ok(t) && l.chain == ChainTo(t, b.header.hash)
    ensures SaveLedger(s.disk, l).blocks == s.disk.blocks[b.header.hash := b]
  {
    hide WellFormed, ChainTo, Faithful, AllOnShelf, SaveLedger;
    AcceptedGrows(r, s, b, t);
    ChainShape(t, b.header.hash);
    assert l.chain[|l.chain| - 1] == b;
    forall i | 0 <= i < |l.chain| && l.chain[i] != b
      ensures l.chain[i].header.hash != b.header.hash
      ensures l.chain[i].header.hash in s.disk.blocks && s.disk.blocks[l.chain[i].header.hash] == l.chain[i]
    {
      var h := l.chain[i].header.hash;
      assert h in t && t[h].block == l.chain[i];
      assert h != b.header.hash;
      assert h in s.tree && t[h] == s.tree[h];
    }
    SavingAddsOne(s.disk, l, b);
  }

  lemma FewerShelved(r: Rules, s: Core, s': Core)
    requires Shelved(r, s) && Within(s'.tree, s.tree) && s'.disk.blocks == s.disk.blocks
    ensures Shelved(r, s')
  {
    hide AllOnShelf;
  }

  lemma SideShelved(r: Rules, s: Core, b: Block, t: Tree, s': Core)
    requires Lawful(r) && Sound(r, s) && s.ledger.chain != [] && Shelved(r, s) && NoClash(s, b)
    requires CheckHeader(r, s, b).None? && Insert(s.tree, b) == Ok(t)
    requires Within(s'.tree, t) && s'.disk.blocks == s.disk.blocks[b.header.hash := b]
    ensures Shelved(r, s')
  {
    hide Sound, Shelved, Lawful, CheckHeader, Insert, NoClash;
    ShelfTakes(r, s, b, t);
    FewerShelved(r, s.(tree := t, disk := s.disk.(blocks := s.disk.blocks[b.header.hash := b])), s');
  }

  lemma ExtensionShelved(r: Rules, s: Core, b: Block, t: Tree, staged: Ledger)
    requires Lawful(r) && Sound(r, s) && s.ledger.chain != [] && Shelved(r, s) && NoClash(s, b)
    requires CheckHeader(r, s, b).None? && Insert(s.tree, b) == Ok(t)
    requires BestTip(t) == Some(b.header.hash) && ExtendsTip(s.ledger, b) && ExecuteOn(r, s.ledger, b) == Ok(staged)
    ensures Shelved(r, Extend(r, s.(tree := t), b, staged))
  {
    hide WellFormed, ChainTo, Replay, Matches, Lawful, CheckHeader, Insert, BestTip, Prune, BlockHashes, BlockWithHash,
      MarkReconfirmed, Shelved, OnChain, InsertBlock;
    AcceptedGrows(r, s, b, t);
    BranchIsStored(r, s, b, t, staged);
    var e := Extended(r, s.(tree := t), b, staged);
    assert e.disk.blocks == SaveLedger(s.disk, staged).blocks;
    assert Within(Extend(r, s.(tree := t), b, staged).tree, t) by { PruneShrinks(r, e); }
    SideShelved(r, s, b, t, Extend(r, s.(tree := t), b, staged));
  }

  lemma PruneShrinks(r: Rules, s: Core)
    ensures Within(PruneFinalized(r, s).tree, s.tree)
  {
    hide ChainTo, OnChain;
  }

  lemma SwitchShelved(r: Rules, s: Core, b: Block, t: Tree, now: nat)
    requires Lawful(r) && Sound(r, s) && s.ledger.chain != [] && Shelved(r, s) && NoClash(s, b)
    requires CheckHeader(r, s, b).None? && CheckState(r, s, b).Ok? && Insert(s.tree, b) == Ok(t)
    requires BestTip(t) == Some(b.header.hash) && !ExtendsTip(s.ledger, b)
    ensures Shelved(r, Reorg(r, s.(tree := t), now).0) <==> Switches(r, s, b) || b.header.hash in s.disk.blocks
  {
    hide WellFormed, ChainTo, Replay, Matches, Lawful, CheckHeader, CheckState, Insert, BestTip, CommonAncestor, Reorg,
      AllOnShelf, SaveLedger, CrossesFinality;
    AcceptedGrows(r, s, b, t);
    var grown := s.(tree := t);
    var s' := Reorg(r, grown, now).0;
    ReorgStores(r, grown, b.header.hash, now);
    if Switches(r, s, b) {
      var l := LedgerForTip(r, grown, b.header.hash).value;
      BranchIsStored(r, s, b, t, l);
      SideShelved(r, s, b, t, s');
    } else if b.header.hash in s.disk.blocks {
      assert s.disk.blocks[b.header.hash := b] == s.disk.blocks;
      SideShelved(r, s, b, t, s');
    } else {
      assert b.header.hash in s'.tree;
    }
  }

  /** A step leaves all of fork choice on disk unless it declines to move to a best tip that is not
      stored yet: that block stays in memory only. */
  lemma ShelvedIff(r: Rules, s: Core, b: Block, now: nat)
    requires Lawful(r) && Sound(r, s) && s.ledger.chain != [] && Shelved(r, s) && NoClash(s, b)
    ensures Shelved(r, KnownParent(r, s, b, now).0) <==> !(Declines(r, s, b) && b.header.hash !in s.disk.blocks)
  {
    hide WellFormed, ChainTo, Replay, Matches, Lawful, CheckHeader, CheckState, Insert, BestTip, Reorg, Extend,
      Switches, Shelved, NoClash, Rooted, Faithful;
    ChecksFail(r, s, b);
    if CheckHeader(r, s, b).None? && CheckState(r, s, b).Ok? && Insert(s.tree, b).Ok? {
      var t, staged := Insert(s.tree, b).value, CheckState(r, s, b).value;
      if BestTip(t) != Some(b.header.hash) {
        SideShelved(r, s, b, t, KnownParent(r, s, b, now).0);
      } else if !ExtendsTip(s.ledger, b) {
        SwitchShelved(r, s, b, t, now);
      } else {
        ExtensionShelved(r, s, b, t, staged.value);
      }
    }
  }

  lemma DeclinedStays(r: Rules, s: Core, b: Block, now: nat)
    requires Lawful(r) && Sound(r, s) && s.ledger.chain != [] && Declines(r, s, b)
    ensures
      var s' := KnownParent(r, s, b, now).0;
      && b.header.hash in s'.tree && BestTip(s'.tree) == Some(b.header.hash)
      && s'.disk.blocks == s.disk.blocks && s'.ledger.chain == s.ledger.chain
  {
    hide WellFormed, ChainTo, Replay, Matches, Lawful, CheckHeader, CheckState, Insert, BestTip, Reorg, CommonAncestor,
      CrossesFinality, LedgerForTip;
    var t := Insert(s.tree, b).value;
    AcceptedGrows(r, s, b, t);
    ReorgStores(r, s.(tree := t), b.header.hash, now);
    ReorgChain(r, s.(tree := t), b.header.hash, now);
  }

  /** A declined best tip that was not stored before is in fork choice until the node restarts, and
      not afterwards. */
  lemma RestartForgetsDeclined(r: Rules, s: Core, b: Block, now: nat, config: M.Config)
    requires Lawful(r) && Sound(r, s) && s.ledger.chain != [] && Shelved(r, s)
    requires Declines(r, s, b) && b.header.hash !in s.disk.blocks
    ensures
      var s' := KnownParent(r, s, b, now).0;
      && BestTip(s'.tree) == Some(b.header.hash) && Grow(s'.ledger.chain).Ok?
      && b.header.hash !in Restarted(r, s'.ledger, s'.genesis, s'.disk, config).tree
  {
    hide KnownParent, Sound, Shelved, Lawful, Declines, Grow, IndexAll, StoredBlocks, FromChain, BestTip, Prune;
    var s' := KnownParent(r, s, b, now).0;
    DeclinedStays(r, s, b, now);
    ReloadIsSound(r, s, config);
    PruneShrinks(r, Reloaded(s'.ledger, s'.genesis, s'.disk, config));
  }

  /** No step of the run declines a best tip that is not stored, and no hashes collide. */
  ghost predicate NothingDeclined(r: Rules, s: Core, inputs: seq<(Block, nat)>)
    decreases |inputs|
  {
    inputs != [] ==>
      var b := inputs[0].0;
      && s.ledger.chain != [] && NoClash(s, b) && !(Declines(r, s, b) && b.header.hash !in s.disk.blocks)
      && NothingDeclined(r, KnownParent(r, s, b, inputs[0].1).0, inputs[1..])
  }

  /** After every run that declines no best tip, a restart brings the node back with its ledger and
      all of its fork choice that is not behind the finality boundary. */
  lemma {:induction false} RestartAfterRun(r: Rules, s: Core, inputs: seq<(Block, nat)>, config: M.Config)
    requires Lawful(r) && Sound(r, s) && s.ledger.chain != [] && Shelved(r, s) && NothingDeclined(r, s, inputs)
    ensures
      var end := Feed(r, s, inputs);
      && Shelved(r, end) && Grow(end.ledger.chain).Ok? && end.ledger.chain != []
      && var n := Restarted(r, end.ledger, end.genesis, end.disk, config);
      && Sound(r, n) && n.ledger == end.ledger && Within(PruneFinalized(r, end).tree, n.tree)
    decreases |inputs|
  {
    hide KnownParent, Sound, Shelved, Lawful, Declines, NoClash, Grow, Restarted, ActiveMoves, Reloaded;
    if inputs == [] {
      RestartRestores(r, s, config);
    } else {
      var (b, now) := inputs[0];
      StepIsSound(r, s, b, now);
      ShelvedIff(r, s, b, now);
      RestartAfterRun(r, KnownParent(r, s, b, now).0, inputs[1..], config);
    }
  }
}

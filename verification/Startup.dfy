/** Starting a node: fork choice and cache are rebuilt from the stored chain. */
module Startup {
  import opened Paqus
  import opened ForkTree
  import opened CoreCache
  import opened ChainEngine
  import opened ChainSafety

  /** Inserts the blocks one after the other into an empty tree. */
  function Grow(chain: seq<Block>): Result<Tree, InsertError> {
    if chain == [] then Ok(map[]) else
    match Grow(chain[..|chain| - 1])
    case Err(e) => Err(e)
    case Ok(t) => Insert(t, chain[|chain| - 1])
  }

  /** Once an insertion fails, so does the whole. */
  lemma {:induction false} GrowStops(chain: seq<Block>, k: nat)
    requires k <= |chain| && Grow(chain[..k]).Err?
    ensures Grow(chain) == Grow(chain[..k])
    decreases |chain|
  {
    if k < |chain| {
      assert chain[..|chain| - 1][..k] == chain[..k];
      GrowStops(chain[..|chain| - 1], k);
    } else {
      assert chain[..k] == chain;
    }
  }

  /** A chain as it is stored: from a block at height zero upward, each naming the one before it,
      with distinct hashes. */
  ghost predicate Upright(chain: seq<Block>) {
    && Numbered(chain)
    && forall i, j :: 0 <= i < |chain| && j == i + 1 < |chain| ==> chain[j].header.previous == chain[i].header.hash
  }

  ghost predicate GrownTo(t: Tree, chain: seq<Block>) {
    && WellFormed(t)
    && (forall h :: h in t <==> OnChain(chain, h))
    && if chain == [] then t == map[] else
         var tip := chain[|chain| - 1].header.hash;
         tip in t && ChainTo(t, tip) == chain && IsBest(t, tip)
  }

  lemma TipBeatsAll(t: Tree, b: Block, t': Tree)
    requires Insert(t, b) == Ok(t')
    requires if b.header.height == 0 then t == map[] else IsBest(t, b.header.previous)
    ensures IsBest(t', b.header.hash)
  {
    forall k | k in t' && k != b.header.hash ensures Beats(t', b.header.hash, k) {
      assert k in t;
      if k != b.header.previous { assert Beats(t, b.header.previous, k); }
    }
  }

  /** Growing along a stored chain succeeds and ends with the chain as the best branch. */
  lemma {:induction false} UprightGrows(chain: seq<Block>)
    requires Upright(chain)
    ensures Grow(chain).Ok? && GrownTo(Grow(chain).value, chain)
  {
    if chain == [] {
    } else {
      var before, b := chain[..|chain| - 1], chain[|chain| - 1];
      UprightGrows(before);
      var t := Grow(before).value;
      assert !OnChain(before, b.header.hash);
      if before != [] {
        assert before[|before| - 1] == chain[|chain| - 2];
        ChainShape(t, before[|before| - 1].header.hash);
      }
      NextGrows(t, before, b);
      assert before + [b] == chain;
    }
  }

  lemma NextGrows(t: Tree, before: seq<Block>, b: Block)
    requires GrownTo(t, before) && b.header.hash !in t
    requires if before == [] then b.header.height == 0 else
      && b.header.previous == before[|before| - 1].header.hash
      && b.header.height == Height(t, b.header.previous) + 1
    ensures Insert(t, b).Ok? && GrownTo(Insert(t, b).value, before + [b])
  {
    hide ChainTo, WellFormed;
    var t' := Insert(t, b).value;
    InsertGrows(t, b, t');
    TipBeatsAll(t, b, t');
    forall h ensures h in t' <==> OnChain(before + [b], h) {
      OnLonger(before, b, h);
    }
  }

  lemma OnLonger(before: seq<Block>, b: Block, h: Hash)
    ensures OnChain(before + [b], h) <==> OnChain(before, h) || h == b.header.hash
  {
    var all := before + [b];
    assert all[|before|] == b;
    assert forall i :: 0 <= i < |before| ==> all[i] == before[i];
    if OnChain(before, h) {
      var i :| 0 <= i < |before| && before[i].header.hash == h;
      assert all[i].header.hash == h;
    }
  }

  /** What a stored ledger must satisfy for the node to start soundly: an upright chain over the
      expected genesis block whose state is its replay, stored as the canonical ledger. */
  ghost predicate Startable(r: Rules, l: Ledger, genesis: State, d: Disk) {
    && Upright(l.chain)
    && (l.chain != [] ==>
         && l.chain[0].header.hash == r.genesisHash
         && Replay(r, genesis, l.chain) == Ok(l.state) && d.canonical == Some(l))
  }

  lemma StartIsSound(r: Rules, l: Ledger, genesis: State, s: Core)
    requires Startable(r, l, genesis, s.disk)
    requires s.ledger == l && s.genesis == genesis && s.cache == FromChain(l.chain)
    requires Grow(l.chain) == Ok(s.tree)
    ensures Sound(r, s) && InSync(s)
  {
    hide WellFormed, ChainTo, Replay, Matches, FromChain, Grow, OnChain;
    UprightGrows(l.chain);
    FromChainMatches(l.chain);
    if l.chain != [] {
      var tip := l.chain[|l.chain| - 1].header.hash;
      assert BestTip(s.tree) == Some(tip);
      ChainShape(s.tree, tip);
    }
  }
}

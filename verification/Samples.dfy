/** Small concrete rules, blocks and nodes for the examples. */
module Samples {
  import opened Paqus
  import opened ForkTree
  import opened CoreCache
  import opened ChainEngine
  import opened ChainSafety
  import M = Mempool

  /** Rules under which every block at the next height is fine and changes no account. */
  function Simple(depth: nat): Rules {
    Rules(
      depth, 1,
      (b: Block) => true,
      (b: Block, p: Block) => b.header.height == p.header.height + 1,
      (s: State, c: seq<Block>, b: Block) => Ok(s),
      (s: State, c: seq<Block>, b: Block) => Ok(7),
      (s: State) => s,
      (s: State, t: Tx, h: nat) => Some(s),
      (t: Tx, h: nat) => true,
      (b: Block, i: nat) => true,
      (b: Block) => b.header,
      (b: Body) => 0,
      (b: Body) => 0)
  }

  function Plain(hash: Hash, height: nat, previous: Hash, work: Positive, txs: seq<Tx>): Block {
    Block(Header(hash, height, previous, work, 7, 0), Body([], None, txs), 0)
  }

  /** A node whose active chain is `chain`, with an empty pool. */
  function Standing(genesis: State, chain: seq<Block>, tree: Tree, issues: map<IssueKey, Issue>): Core {
    Core(Ledger(genesis, chain), tree, FromChain(chain), genesis, M.Empty(M.Config(1, 1, 1, 1, 1)),
         Disk(Some(Ledger(genesis, chain)), map[], issues, {}), 0)
  }

  lemma SimpleIsLawful(depth: nat)
    ensures Lawful(Simple(depth))
  {
  }

  lemma {:induction false} SimpleReplays(depth: nat, genesis: State, chain: seq<Block>)
    requires chain != []
    ensures Replay(Simple(depth), genesis, chain) == Ok(genesis)
  {
    if |chain| > 1 {
      SimpleReplays(depth, genesis, chain[..|chain| - 1]);
    }
  }

  lemma StandingIsSound(depth: nat, genesis: State, chain: seq<Block>, tree: Tree, issues: map<IssueKey, Issue>)
    requires chain != [] && WellFormed(tree) && 1 in tree && Height(tree, 1) == 0
    requires
      var tip := chain[|chain| - 1].header.hash;
      tip in tree && ChainTo(tree, tip) == chain
    ensures Sound(Simple(depth), Standing(genesis, chain, tree, issues))
  {
    hide Replay, ChainTo, WellFormed, FromChain, Matches;
    SimpleReplays(depth, genesis, chain);
    ChainIsNumbered(tree, chain[|chain| - 1].header.hash);
    FromChainMatches(chain);
  }
}
